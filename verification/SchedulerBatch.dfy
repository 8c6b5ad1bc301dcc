/** What a scheduler run has done after its first few tasks. */
module SchedulerBatch {
  import opened Prelude
  import opened RunEvents
  import opened EventLog
  import opened Database
  import opened ApprovalEngine
  import opened EaTasks
  import opened SchedulerSpec

  // ---- counters ----

  datatype Kind = Approves | Denies | Reschedules | Expires | Missing

  function KindOf(d: Option<Decision>): Kind {
    match d
    case None => Missing
    case Some(Grant) => Approves
    case Some(DenyAbandon(_)) => Denies
    case Some(DenyAlternatePath(_)) => Reschedules
    case Some(TimeOut(_)) => Expires
  }

  function CountKind(ds: seq<Option<Decision>>, kind: Kind): nat {
    if ds == [] then 0
    else CountKind(ds[..|ds| - 1], kind) + if KindOf(ds[|ds| - 1]) == kind then 1 else 0
  }

  lemma {:induction false} CountedExactlyWhenPresent(ds: seq<Option<Decision>>, kind: Kind)
    ensures CountKind(ds, kind) > 0 <==> exists i :: 0 <= i < |ds| && KindOf(ds[i]) == kind
  {
    if ds != [] {
      var k := |ds| - 1;
      CountedExactlyWhenPresent(ds[..k], kind);
      if i :| 0 <= i < |ds| && KindOf(ds[i]) == kind {
        assert i < k ==> ds[..k][i] == ds[i];
      }
    }
  }

  /** Every task is counted under one kind. */
  lemma {:induction false} KindsPartition(ds: seq<Option<Decision>>)
    ensures CountKind(ds, Approves) + CountKind(ds, Denies) + CountKind(ds, Reschedules)
         + CountKind(ds, Expires) + CountKind(ds, Missing) == |ds|
  {
    if ds != [] {
      KindsPartition(ds[..|ds| - 1]);
    }
  }

  /** What the counters count, written out. */
  lemma CountsWritten(ds: seq<Option<Decision>>)
    ensures CountKind(ds, Approves) == |set i | 0 <= i < |ds| && ds[i].Some? && ds[i].value.Grant?|
    ensures CountKind(ds, Denies) == |set i | 0 <= i < |ds| && ds[i].Some? && ds[i].value.DenyAbandon?|
    ensures CountKind(ds, Reschedules) == |set i | 0 <= i < |ds| && ds[i].Some? && ds[i].value.DenyAlternatePath?|
    ensures CountKind(ds, Missing) == |set i | 0 <= i < |ds| && ds[i].None?|
  {
    CountIsSize(ds, Approves, set i | 0 <= i < |ds| && ds[i].Some? && ds[i].value.Grant?);
    CountIsSize(ds, Denies, set i | 0 <= i < |ds| && ds[i].Some? && ds[i].value.DenyAbandon?);
    CountIsSize(ds, Reschedules, set i | 0 <= i < |ds| && ds[i].Some? && ds[i].value.DenyAlternatePath?);
    CountIsSize(ds, Missing, set i | 0 <= i < |ds| && ds[i].None?);
  }

  lemma {:induction false} CountIsSize(ds: seq<Option<Decision>>, kind: Kind, hits: set<int>)
    requires forall i :: i in hits <==> 0 <= i < |ds| && KindOf(ds[i]) == kind
    ensures CountKind(ds, kind) == |hits|
  {
    if ds == [] {
      assert forall i :: i !in hits;
    } else {
      var n := |ds| - 1;
      var before := hits - {n};
      assert forall i :: 0 <= i < n ==> ds[..n][i] == ds[i];
      CountIsSize(ds[..n], kind, before);
      assert hits == if KindOf(ds[n]) == kind then before + {n} else before;
    }
  }

  lemma {:induction false} CountKindSnoc(ds: seq<Option<Decision>>, d: Option<Decision>, kind: Kind)
    ensures CountKind(ds + [d], kind) == CountKind(ds, kind) + if KindOf(d) == kind then 1 else 0
  {
    assert (ds + [d])[..|ds|] == ds;
  }

  // ---- the tables ----

  function Checks(run: RunId, ids: seq<TaskId>): set<ApprovalId> {
    set i | 0 <= i < |ids| :: CheckpointId(run, ids[i])
  }

  /** Nothing that was there before has changed. */
  ghost predicate Untouched(s: Snapshot, s': Snapshot) {
    && s'.runs == s.runs
    && forall id :: id in s.tasks ==> id in s'.tasks && s'.tasks[id] == s.tasks[id]
  }

  /** One new task per id, in the state its decision leads to. */
  ghost predicate TasksAdded(s: Snapshot, s': Snapshot, queue: seq<ScheduledTask>, ids: seq<TaskId>,
      ds: seq<Option<Decision>>)
    requires |ids| == |ds| <= |queue|
  {
    && Untouched(s, s')
    && s'.tasks.Keys == s.tasks.Keys + Elems(ids)
    && forall i :: 0 <= i < |ids| ==>
         && ids[i] in s'.tasks
         && s'.tasks[ids[i]] == Task(ids[i], SESSION, queue[i].title, queue[i].objective, FinalState(ds[i]))
  }

  /** One checkpoint per id, in the state its decision leads to; other approvals are as before. */
  ghost predicate ChecksAdded(s: Snapshot, s': Snapshot, run: RunId, ids: seq<TaskId>, ds: seq<Option<Decision>>)
    requires |ids| == |ds|
  {
    && (forall c :: c !in Checks(run, ids) ==> (c in s'.approvals <==> c in s.approvals))
    && (forall c :: c !in Checks(run, ids) && c in s.approvals ==> s'.approvals[c] == s.approvals[c])
    && forall i :: 0 <= i < |ids| ==>
         && CheckpointId(run, ids[i]) in s'.approvals
         && s'.approvals[CheckpointId(run, ids[i])].state == FinalApproval(ds[i])
  }

  /** The run's log has grown by the traces of the tasks. */
  ghost predicate TracesAdded(s: Snapshot, s': Snapshot, run: RunId, ids: seq<TaskId>, ds: seq<Option<Decision>>)
    requires |ids| == |ds|
  {
    && Grows(s.rows, s'.rows, run, AllTraces(|RowsOf(s.rows, run)|, run, ids, ds))
    && SameElsewhere(s.rows, s'.rows, Checks(run, ids))
  }

  /** The first |ids| queued tasks have been processed. */
  ghost predicate Handled(s: Snapshot, s': Snapshot, run: RunId, queue: seq<ScheduledTask>, ids: seq<TaskId>,
      ds: seq<Option<Decision>>)
  {
    && |ids| == |ds| <= |queue|
    && TasksAdded(s, s', queue, ids, ds) && ChecksAdded(s, s', run, ids, ds) && TracesAdded(s, s', run, ids, ds)
  }

  /** The repository has one new task per entry, each under an id of its own. */
  lemma {:induction false} OneTaskPerEntry(s: Snapshot, s': Snapshot, queue: seq<ScheduledTask>,
      ds: seq<Option<Decision>>)
    requires |ds| == |queue| && TasksAdded(s, s', queue, AllocIds(s.tasks.Keys, |queue|), ds)
    ensures |s'.tasks| == |s.tasks| + |queue|
    ensures var ids := AllocIds(s.tasks.Keys, |queue|);
      NoDup(ids) && forall i :: 0 <= i < |ids| ==> ids[i] !in s.tasks && ids[i] in s'.tasks
  {
    var keys, ids := s.tasks.Keys, AllocIds(s.tasks.Keys, |queue|);
    AllocNew(keys, |queue|);
    NoDupSize(ids);
    assert keys !! Elems(ids);
    assert |s'.tasks.Keys| == |keys| + |Elems(ids)|;
  }

  lemma CompletedMeansGranted(d: Option<Decision>)
    ensures FinalState(d) == TaskCompleted <==> d == Some(Grant)
  {
  }

  /** A task is completed exactly when its title has a grant or, with no decision for
      the title, its 1-based index has one. */
  lemma {:induction false} NoAutoGrant(s: Snapshot, s': Snapshot, queue: seq<ScheduledTask>,
      decisions: map<string, Decision>, ids: seq<TaskId>, i: nat)
    requires i < |queue| == |ids| && TasksAdded(s, s', queue, ids, DecisionsFor(queue, decisions))
    ensures var title, index := queue[i].title, Decimal(i + 1);
      ids[i] in s'.tasks &&
      (s'.tasks[ids[i]].state == TaskCompleted <==>
        || (title in decisions && decisions[title] == Grant)
        || (title !in decisions && index in decisions && decisions[index] == Grant))
  {
    var d := DecisionFor(decisions, queue[i].title, i + 1);
    assert s'.tasks[ids[i]].state == FinalState(d);
    CompletedMeansGranted(d);
  }

  /** The decision that the map holds for a task: under its title, and only without one
      there under its 1-based index. */
  ghost predicate Chosen(decisions: map<string, Decision>, title: string, index: string, d: Decision) {
    || (title in decisions && decisions[title] == d)
    || (title !in decisions && index in decisions && decisions[index] == d)
  }

  lemma ChosenDecides(queue: seq<ScheduledTask>, decisions: map<string, Decision>, i: nat)
    requires i < |queue|
    ensures var d := DecisionsFor(queue, decisions)[i];
      var title, index := queue[i].title, Decimal(i + 1);
      && (d.Some? ==> Chosen(decisions, title, index, d.value))
      && (d.None? ==> title !in decisions && index !in decisions)
  {
  }

  /** Where the i-th queued task and its checkpoint end up, by the keys of the map. */
  lemma OutcomesByKeys(s: Snapshot, s': Snapshot, run: RunId, queue: seq<ScheduledTask>,
      decisions: map<string, Decision>, ids: seq<TaskId>, i: nat)
    requires i < |queue| == |ids|
    requires TasksAdded(s, s', queue, ids, DecisionsFor(queue, decisions))
    requires ChecksAdded(s, s', run, ids, DecisionsFor(queue, decisions))
    ensures ids[i] in s'.tasks && ApprovalId(run, "ea_checkpoint-" + ids[i]) in s'.approvals
    ensures var title, index := queue[i].title, Decimal(i + 1);
      var task, check := s'.tasks[ids[i]], s'.approvals[ApprovalId(run, "ea_checkpoint-" + ids[i])];
      && task == Task(ids[i], "scheduler-sess", queue[i].title, queue[i].objective, task.state)
      && (forall d :: Chosen(decisions, title, index, d) ==>
            && (task.state == TaskCompleted <==> d.Grant?)
            && (task.state == Planned <==> d.DenyAlternatePath?)
            && (task.state == TaskFailed <==> d.TimeOut?)
            && (task.state == Waiting <==> d.DenyAbandon?)
            && (check.state == Granted <==> d.Grant?)
            && (check.state == Denied <==> d.DenyAbandon? || d.DenyAlternatePath?)
            && (check.state == TimedOut <==> d.TimeOut?))
      && (check.state == Pending <==> title !in decisions && index !in decisions)
      && (check.state == Pending ==> task.state == Waiting)
  {
    ChosenDecides(queue, decisions, i);
    var d := DecisionsFor(queue, decisions)[i];
    assert s'.tasks[ids[i]].state == FinalState(d);
    assert s'.approvals[CheckpointId(run, ids[i])].state == FinalApproval(d);
  }

  lemma NothingAdded(s: Snapshot, run: RunId, queue: seq<ScheduledTask>)
    ensures Handled(s, s, run, queue, [], [])
  {
    assert s.rows[|s.rows|..] == [];
  }

  lemma ChecksSnoc(run: RunId, ids: seq<TaskId>, id: TaskId)
    ensures Checks(run, ids + [id]) == Checks(run, ids) + {CheckpointId(run, id)}
    ensures id !in Elems(ids) ==> CheckpointId(run, id) !in Checks(run, ids)
  {
    assert (ids + [id])[|ids|] == id;
    forall c | c in Checks(run, ids)
      ensures c in Checks(run, ids + [id])
    {
      var i :| 0 <= i < |ids| && CheckpointId(run, ids[i]) == c;
      assert (ids + [id])[i] == ids[i];
    }
    if CheckpointId(run, id) in Checks(run, ids) {
      var i :| 0 <= i < |ids| && CheckpointId(run, ids[i]) == CheckpointId(run, id);
      CheckpointInjective(run, ids[i], id);
    }
  }

  lemma TasksStep(s0: Snapshot, s1: Snapshot, s2: Snapshot, queue: seq<ScheduledTask>,
      ids: seq<TaskId>, ds: seq<Option<Decision>>, id: TaskId, d: Option<Decision>)
    requires |ids| == |ds| < |queue| && TasksAdded(s0, s1, queue, ids, ds)
    requires id !in s1.tasks && OnlyTask(s1, s2, id)
    requires s2.tasks[id] == Task(id, SESSION, queue[|ids|].title, queue[|ids|].objective, FinalState(d))
    ensures TasksAdded(s0, s2, queue, ids + [id], ds + [d])
  {
    ElemsSnoc(ids, id);
    assert s2.tasks.Keys == s1.tasks.Keys + {id};
    var ids', ds' := ids + [id], ds + [d];
    forall i | 0 <= i < |ids'|
      ensures ids'[i] in s2.tasks
      ensures s2.tasks[ids'[i]] == Task(ids'[i], SESSION, queue[i].title, queue[i].objective, FinalState(ds'[i]))
    {
      if i < |ids| {
        assert ids'[i] == ids[i] && ds'[i] == ds[i];
      } else {
        assert ids'[i] == id && ds'[i] == d;
      }
    }
  }

  lemma ChecksStep(s0: Snapshot, s1: Snapshot, s2: Snapshot, run: RunId,
      ids: seq<TaskId>, ds: seq<Option<Decision>>, id: TaskId, d: Option<Decision>)
    requires |ids| == |ds| && ChecksAdded(s0, s1, run, ids, ds) && id !in Elems(ids)
    requires SameApprovalsBut(s1, s2, CheckpointId(run, id))
      && s2.approvals[CheckpointId(run, id)].state == FinalApproval(d)
    ensures ChecksAdded(s0, s2, run, ids + [id], ds + [d])
  {
    ChecksSnoc(run, ids, id);
    forall i | 0 <= i < |ids|
      ensures CheckpointId(run, ids[i]) != CheckpointId(run, id)
    {
      assert CheckpointId(run, ids[i]) in Checks(run, ids);
    }
  }

  lemma {:induction false} AllTracesSnoc(n: nat, run: RunId, ids: seq<TaskId>, ds: seq<Option<Decision>>, id: TaskId,
      d: Option<Decision>)
    requires |ids| == |ds|
    ensures AllTraces(n, run, ids + [id], ds + [d]) == Extend(n, run, AllTraces(n, run, ids, ds), id, d)
  {
    assert (ids + [id])[..|ids|] == ids;
    assert (ds + [d])[..|ds|] == ds;
  }

  lemma SameElsewhereTrans(a: seq<Event>, b: seq<Event>, c: seq<Event>, first: set<ApprovalId>,
      second: set<ApprovalId>)
    requires SameElsewhere(a, b, first) && SameElsewhere(b, c, second)
    ensures SameElsewhere(a, c, first + second)
  {
  }

  lemma {:induction false} GrowsLength(a: seq<Event>, b: seq<Event>, run: RunId, bodies: seq<Body>)
    requires Grows(a, b, run, bodies)
    ensures |RowsOf(b, run)| == |RowsOf(a, run)| + |bodies|
  {
    GrowsLog(a, b, run, bodies);
  }

  lemma {:induction false} ExtendGrows(a: seq<Event>, b: seq<Event>, c: seq<Event>, run: RunId, before: seq<Body>,
      id: TaskId, d: Option<Decision>)
    requires Grows(a, b, run, before)
    requires Grows(b, c, run, TaskTrace(|RowsOf(b, run)|, CheckpointId(run, id), d))
    ensures Grows(a, c, run, Extend(|RowsOf(a, run)|, run, before, id, d))
  {
    var trace := TaskTrace(|RowsOf(b, run)|, CheckpointId(run, id), d);
    GrowsLength(a, b, run, before);
    GrowsTrans(a, b, c, run, before, trace);
    assert Extend(|RowsOf(a, run)|, run, before, id, d) == before + trace;
  }

  lemma {:induction false} TracesStep(s0: Snapshot, s1: Snapshot, s2: Snapshot, run: RunId,
      ids: seq<TaskId>, ds: seq<Option<Decision>>, id: TaskId, d: Option<Decision>)
    requires |ids| == |ds| && TracesAdded(s0, s1, run, ids, ds)
    requires Grows(s1.rows, s2.rows, run, TaskTrace(|RowsOf(s1.rows, run)|, CheckpointId(run, id), d))
    requires SameElsewhere(s1.rows, s2.rows, {CheckpointId(run, id)})
    ensures TracesAdded(s0, s2, run, ids + [id], ds + [d])
  {
    var n := |RowsOf(s0.rows, run)|;
    ExtendGrows(s0.rows, s1.rows, s2.rows, run, AllTraces(n, run, ids, ds), id, d);
    AllTracesSnoc(n, run, ids, ds, id, d);
    SameElsewhereTrans(s0.rows, s1.rows, s2.rows, Checks(run, ids), {CheckpointId(run, id)});
    ChecksSnoc(run, ids, id);
  }

  /** The checkpoint ids of a task to come are as free as at the start. */
  lemma StillFree(s0: Snapshot, s1: Snapshot, run: RunId, ids: seq<TaskId>,
      ds: seq<Option<Decision>>, id: TaskId, d: Option<Decision>)
    requires |ids| == |ds| && TracesAdded(s0, s1, run, ids, ds) && id !in Elems(ids)
    ensures CheckpointFree(s1.rows, CheckpointId(run, id), d) <==> CheckpointFree(s0.rows, CheckpointId(run, id), d)
  {
    ChecksSnoc(run, ids, id);
  }

  /** Whether the run takes events and every checkpoint's fixed ids are unused. */
  ghost predicate AllFree(s: Snapshot, run: RunId, ids: seq<TaskId>, ds: seq<Option<Decision>>) {
    |ids| == |ds| && forall i :: 0 <= i < |ids| ==> CheckpointFree(s.rows, CheckpointId(run, ids[i]), ds[i])
  }

  /** The loop has processed k tasks, none of which was refused. */
  ghost predicate Reached(s: Snapshot, s': Snapshot, run: RunId, queue: seq<ScheduledTask>, ds: seq<Option<Decision>>,
      k: nat)
  {
    && k <= |queue| == |ds|
    && Handled(s, s', run, queue, AllocIds(s.tasks.Keys, k), ds[..k])
    && AllFree(s, run, AllocIds(s.tasks.Keys, k), ds[..k])
    && (k > 0 ==> !RunClosed(s, run))
  }

  lemma AllFreeSnoc(s: Snapshot, run: RunId, ids: seq<TaskId>, ds: seq<Option<Decision>>,
      id: TaskId, d: Option<Decision>)
    requires |ids| == |ds|
    ensures AllFree(s, run, ids + [id], ds + [d]) <==>
      AllFree(s, run, ids, ds) && CheckpointFree(s.rows, CheckpointId(run, id), d)
  {
    forall i | 0 <= i < |ids|
      ensures (ids + [id])[i] == ids[i] && (ds + [d])[i] == ds[i]
    {
    }
    assert (ids + [id])[|ids|] == id && (ds + [d])[|ds|] == d;
  }

  lemma AllFreePrefix(s: Snapshot, run: RunId, ids: seq<TaskId>, ds: seq<Option<Decision>>, k: nat)
    requires |ids| == |ds| && k <= |ids|
    ensures AllFree(s, run, ids, ds) ==> AllFree(s, run, ids[..k], ds[..k])
  {
  }

  lemma {:induction false} AllocSnoc(keys: set<TaskId>, k: nat)
    ensures AllocIds(keys, k + 1) == AllocIds(keys, k) + [NextId(keys + Elems(AllocIds(keys, k)), SESSION)]
  {
  }

  /** The full list of ids begins with those taken so far and the next one. */
  lemma {:induction false} NextIds(keys: set<TaskId>, n: nat, k: nat)
    requires k < n
    ensures var ids := AllocIds(keys, k);
      AllocIds(keys, n)[..k + 1] == ids + [NextId(keys + Elems(ids), SESSION)]
  {
    AllocSnoc(keys, k);
    AllocPrefix(keys, n, k + 1);
  }

  /** One more task: the ids and decisions grow by one, and freedom up to there is
      freedom so far and for the new checkpoint. */
  lemma {:induction false} NextTask(s: Snapshot, run: RunId, keys: set<TaskId>, ds: seq<Option<Decision>>, k: nat)
    requires k < |ds|
    ensures var ids := AllocIds(keys, k);
      var id := NextId(keys + Elems(ids), SESSION);
      && AllocIds(keys, k + 1) == ids + [id] && ds[..k + 1] == ds[..k] + [ds[k]]
      && (AllFree(s, run, ids + [id], ds[..k] + [ds[k]]) <==>
         AllFree(s, run, ids, ds[..k]) && CheckpointFree(s.rows, CheckpointId(run, id), ds[k]))
      && (AllFree(s, run, AllocIds(keys, |ds|), ds) ==> AllFree(s, run, ids + [id], ds[..k] + [ds[k]]))
  {
    var ids, all := AllocIds(keys, k), AllocIds(keys, |ds|);
    var id := NextId(keys + Elems(ids), SESSION);
    AllocSnoc(keys, k);
    assert ds[..k + 1] == ds[..k] + [ds[k]];
    AllFreeSnoc(s, run, ids, ds[..k], id, ds[k]);
    NextIds(keys, |ds|, k);
    AllFreePrefix(s, run, all, ds, k + 1);
  }
}
