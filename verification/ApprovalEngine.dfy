/** The approval engine: requests, resolutions, and what holds over every history of both. */
module ApprovalEngine {
  import opened Prelude
  import opened RunEvents
  import opened EventLog
  import opened Database
  import LogTheorems

  datatype Decision =
    | Grant
    | DenyAbandon(note: string)
    | DenyAlternatePath(note: string)
    | TimeOut(retryable: bool)

  /** The tables the engine works on. */
  datatype EngineState = EngineState(table: Table, approvals: map<ApprovalId, Approval>)

  datatype RequestResult = Requested(approval: Approval) | RequestRefused(outcome: AppendOutcome)

  datatype ResolveResult =
    | ApprovalNotFound
    | AlreadyResolved
    | Emitted(event: Event)
    | ResolveRefused(outcome: AppendOutcome)

  function StateAfter(d: Decision): ApprovalState {
    match d
    case Grant => Granted
    case DenyAbandon(_) => Denied
    case DenyAlternatePath(_) => Denied
    case TimeOut(_) => TimedOut
  }

  function TagOf(d: Decision): ApprovalTag {
    match d
    case Grant => TagGranted
    case DenyAbandon(_) => TagDeniedAbandon
    case DenyAlternatePath(_) => TagDeniedAlternate
    case TimeOut(retryable) => if retryable then TagTimeoutRetry else TagTimeout
  }

  /** The event type and payload that the protocol maps a decision to. */
  function BodyOf(d: Decision, latest: nat): Body {
    match d
    case Grant => Resumed(ApprovalGranted, latest)
    case DenyAbandon(_) => RunCancelled(ApprovalDenied)
    case DenyAlternatePath(_) => Resumed(ApprovalDeniedAlternatePath, latest)
    case TimeOut(retryable) => if retryable then RunFailed(true) else RunCancelled(ApprovalTimeout)
  }

  function WaitingEvent(id: ApprovalId, latest: nat): Event {
    Event(ForApproval(id, TagWaiting), id.run, latest + 1, ApprovalWaiting(id))
  }

  function DecisionEvent(id: ApprovalId, d: Decision, latest: nat): Event {
    Event(ForApproval(id, TagOf(d)), id.run, latest + 1, BodyOf(d, latest))
  }

  /** `request`: the save comes first and stays even when the append is refused. */
  function Request(s: EngineState, a: Approval): (EngineState, RequestResult) {
    var pending := a.(state := Pending);
    var (table, out) := Append(s.table, WaitingEvent(a.id, MaxSeq(s.table.rows, a.id.run)));
    (EngineState(table, s.approvals[a.id := pending]),
     if out.Appended? then Requested(pending) else RequestRefused(out))
  }

  /** `resolve`: only a pending approval; again the save comes first. */
  function Resolve(s: EngineState, id: ApprovalId, d: Decision): (EngineState, ResolveResult) {
    if id !in s.approvals then (s, ApprovalNotFound)
    else if !s.approvals[id].state.Pending? then (s, AlreadyResolved)
    else
      var saved := s.approvals[id].(state := StateAfter(d));
      var (table, out) := Append(s.table, DecisionEvent(id, d, MaxSeq(s.table.rows, id.run)));
      (EngineState(table, s.approvals[id := saved]), if out.Appended? then Emitted(out.event) else ResolveRefused(out))
  }

  class ApprovalEngine {
    const db: Session

    constructor (db: Session)
      ensures this.db == db
    {
      this.db := db;
    }

    function State(): EngineState
      reads db
    {
      EngineState(db.Log(), db.approvals)
    }

    method RequestApproval(run: RunId, kind: string, summary: string, capability: Option<string>)
      returns (r: RequestResult)
      requires db.Valid()
      modifies db`approvals, db`rows
      ensures db.Valid()
      ensures (State(), r) == Request(old(State()), Approval(ApprovalId(run, kind), Pending, capability, summary))
      ensures var id, n := ApprovalId(run, kind), |RowsOf(old(db.rows), run)|;
        && (r.Requested? <==> !TerminalRun(old(db.Log()), run) && !IdUsed(old(db.rows), ForApproval(id, TagWaiting)))
        && db.rows == old(db.rows) + (if r.Requested? then [WaitingEvent(id, n)] else [])
        && db.approvals == old(db.approvals)[id := Approval(id, Pending, capability, summary)]
    {
      var approval := Approval(ApprovalId(run, kind), Pending, capability, summary);
      db.SaveApproval(approval);
      MaxSeqIsLength(db.rows, run);
      var latest := db.LatestSeq(run);
      var out := db.Append(WaitingEvent(approval.id, latest));
      r := if out.Appended? then Requested(approval) else RequestRefused(out);
    }

    method ResolveApproval(id: ApprovalId, d: Decision) returns (r: ResolveResult)
      requires db.Valid()
      modifies db`approvals, db`rows
      ensures db.Valid()
      ensures (State(), r) == Resolve(old(State()), id, d)
      ensures r == ApprovalNotFound <==> id !in old(db.approvals)
      ensures r == AlreadyResolved <==> id in old(db.approvals) && !old(db.approvals)[id].state.Pending?
      ensures id in old(db.approvals) && old(db.approvals)[id].state.Pending? ==>
        var n := |RowsOf(old(db.rows), id.run)|;
        && (r.Emitted? <==> !TerminalRun(old(db.Log()), id.run) && !IdUsed(old(db.rows), ForApproval(id, TagOf(d))))
        && db.rows == old(db.rows) + (if r.Emitted? then [DecisionEvent(id, d, n)] else [])
        && db.approvals == old(db.approvals)[id := old(db.approvals)[id].(state := StateAfter(d))]
    {
      if id !in db.approvals {
        return ApprovalNotFound;
      }
      var existing := db.approvals[id];
      if existing.state != Pending {
        return AlreadyResolved;
      }
      MaxSeqIsLength(db.rows, id.run);
      db.SaveApproval(existing.(state := StateAfter(d)));
      var latest := db.LatestSeq(id.run);
      var out := db.Append(DecisionEvent(id, d, latest));
      r := if out.Appended? then Emitted(out.event) else ResolveRefused(out);
    }
  }

  // ---- histories ----

  datatype Call = RequestCall(approval: Approval) | ResolveCall(id: ApprovalId, decision: Decision)

  function Apply(s: EngineState, c: Call): EngineState {
    match c
    case RequestCall(a) => Request(s, a).0
    case ResolveCall(id, d) => Resolve(s, id, d).0
  }

  function History(s: EngineState, calls: seq<Call>): EngineState {
    if calls == [] then s else Apply(History(s, calls[..|calls| - 1]), calls[|calls| - 1])
  }

  predicate IsPending(s: EngineState, id: ApprovalId) {
    id in s.approvals && s.approvals[id].state.Pending?
  }

  /** A resolve call that gets past the guard and saves. */
  predicate Resolves(s: EngineState, c: Call, id: ApprovalId) {
    c.ResolveCall? && c.id == id && IsPending(s, id)
  }

  predicate Requests(c: Call, id: ApprovalId) {
    c.RequestCall? && c.approval.id == id
  }

  datatype Save = NoSave | ByRequest | ByResolve

  /** The last call of the history that saved the approval. */
  function LastSave(s: EngineState, calls: seq<Call>, id: ApprovalId): Save {
    if calls == [] then NoSave
    else
      var n := |calls| - 1;
      if Requests(calls[n], id) then ByRequest
      else if Resolves(History(s, calls[..n]), calls[n], id) then ByResolve
      else LastSave(s, calls[..n], id)
  }

  /** In every history an approval is pending exactly when the last call that saved it was a request. */
  lemma {:induction false} PendingIffRequestedLast(s: EngineState, calls: seq<Call>, id: ApprovalId)
    requires !IsPending(s, id)
    ensures IsPending(History(s, calls), id) <==> LastSave(s, calls, id) == ByRequest
  {
    if calls == [] {
    } else {
      PendingIffRequestedLast(s, calls[..|calls| - 1], id);
    }
  }

  /** With no request in between, an approval that is not pending stays so. */
  lemma {:induction false} StaysResolved(s: EngineState, calls: seq<Call>, id: ApprovalId, i: nat, j: nat)
    requires i <= j <= |calls| && !IsPending(History(s, calls[..i]), id)
    requires forall k :: i <= k < j ==> !Requests(calls[k], id)
    ensures !IsPending(History(s, calls[..j]), id)
    decreases j - i
  {
    if i < j {
      StaysResolved(s, calls, id, i, j - 1);
      assert calls[..j][..j - 1] == calls[..j - 1];
    }
  }

  lemma {:induction false} ResolveSettles(s: EngineState, calls: seq<Call>, id: ApprovalId, i: nat)
    requires i < |calls| && Resolves(History(s, calls[..i]), calls[i], id)
    ensures !IsPending(History(s, calls[..i + 1]), id)
  {
    assert calls[..i + 1][..i] == calls[..i];
  }

  /** Between any two resolutions of one approval lies a new request for it. */
  lemma {:induction false} RequestBetweenResolves(s: EngineState, calls: seq<Call>, id: ApprovalId, i: nat, j: nat)
    requires i < j < |calls|
    requires Resolves(History(s, calls[..i]), calls[i], id) && Resolves(History(s, calls[..j]), calls[j], id)
    ensures exists k :: i < k < j && Requests(calls[k], id)
  {
    if forall k :: i < k < j ==> !Requests(calls[k], id) {
      ResolveSettles(s, calls, id, i);
      StaysResolved(s, calls, id, i + 1, j);
      assert false;
    }
  }

  function CountRequests(calls: seq<Call>, id: ApprovalId): nat {
    if calls == [] then 0
    else CountRequests(calls[..|calls| - 1], id) + if Requests(calls[|calls| - 1], id) then 1 else 0
  }

  function CountResolves(s: EngineState, calls: seq<Call>, id: ApprovalId): nat {
    if calls == [] then 0
    else
      var n := |calls| - 1;
      CountResolves(s, calls[..n], id) + if Resolves(History(s, calls[..n]), calls[n], id) then 1 else 0
  }

  /** Every resolution uses up a request, and a pending approval is one still to be used. */
  lemma {:induction false} ResolvesUseUpRequests(s: EngineState, calls: seq<Call>, id: ApprovalId)
    requires !IsPending(s, id)
    ensures CountResolves(s, calls, id) + (if IsPending(History(s, calls), id) then 1 else 0)
         <= CountRequests(calls, id)
  {
    if calls == [] {
    } else {
      ResolvesUseUpRequests(s, calls[..|calls| - 1], id);
    }
  }

  // ---- the log ----

  /** A request always leaves its approval pending. It adds exactly one waiting event
      when the run is not terminal and the approval was never requested before. */
  lemma {:induction false} RequestEffect(s: EngineState, a: Approval, run: RunId)
    requires WellFormed(s.table.rows)
    ensures var (s', r) := Request(s, a);
      var n := |RowsOf(s.table.rows, a.id.run)|;
      && WellFormed(s'.table.rows) && s'.table.runs == s.table.runs
      && s'.approvals == s.approvals[a.id := a.(state := Pending)]
      && (r.Requested? <==> !TerminalRun(s.table, a.id.run) && !IdUsed(s.table.rows, ForApproval(a.id, TagWaiting)))
      && s'.table.rows == s.table.rows + (if r.Requested? then [WaitingEvent(a.id, n)] else [])
      && RowsOf(s'.table.rows, run) ==
         RowsOf(s.table.rows, run) + (if r.Requested? && run == a.id.run then [WaitingEvent(a.id, n)] else [])
  {
    var n := |RowsOf(s.table.rows, a.id.run)|;
    MaxSeqIsLength(s.table.rows, a.id.run);
    AppendEffect(s.table, WaitingEvent(a.id, n));
  }

  /** A resolution changes its own approval and its own run's log only. It adds exactly
      one event, of the mapped type, when the run's state is not terminal and that event
      id is unused, and otherwise none, although the approval has been saved. */
  lemma {:induction false} ResolveEffect(s: EngineState, id: ApprovalId, d: Decision, run: RunId)
    requires WellFormed(s.table.rows) && IsPending(s, id)
    ensures var (s', r) := Resolve(s, id, d);
      var n := |RowsOf(s.table.rows, id.run)|;
      && WellFormed(s'.table.rows) && s'.table.runs == s.table.runs
      && s'.approvals == s.approvals[id := s.approvals[id].(state := StateAfter(d))]
      && (r.Emitted? <==> !TerminalRun(s.table, id.run) && !IdUsed(s.table.rows, ForApproval(id, TagOf(d))))
      && (r.Emitted? ==> r.event == Event(ForApproval(id, TagOf(d)), id.run, n + 1, BodyOf(d, n)))
      && RowsOf(s'.table.rows, run) ==
         RowsOf(s.table.rows, run) + (if r.Emitted? && run == id.run then [r.event] else [])
  {
    var n := |RowsOf(s.table.rows, id.run)|;
    MaxSeqIsLength(s.table.rows, id.run);
    AppendEffect(s.table, DecisionEvent(id, d, n));
  }

  /** What each decision saves and logs, written out: the state, and on an accepted append
      the id, the event and the seq it records. */
  lemma {:induction false} DecisionsWritten(s: EngineState, id: ApprovalId, d: Decision)
    requires WellFormed(s.table.rows) && IsPending(s, id)
    ensures var state := Resolve(s, id, d).0.approvals[id].state;
      && (state == Granted <==> d.Grant?)
      && (state == Denied <==> d.DenyAbandon? || d.DenyAlternatePath?)
      && (state == TimedOut <==> d.TimeOut?)
    ensures var r := Resolve(s, id, d).1;
      var n := |RowsOf(s.table.rows, id.run)|;
      r.Emitted? ==>
        && r.event.run == id.run && r.event.num == n + 1
        && (r.event.body == Resumed(ApprovalGranted, n) <==> d.Grant?)
        && (r.event.body == RunCancelled(ApprovalDenied) <==> d.DenyAbandon?)
        && (r.event.body == Resumed(ApprovalDeniedAlternatePath, n) <==> d.DenyAlternatePath?)
        && (r.event.body == RunFailed(true) <==> d == TimeOut(true))
        && (r.event.body == RunCancelled(ApprovalTimeout) <==> d == TimeOut(false))
        && (r.event.id == ForApproval(id, TagGranted) <==> d.Grant?)
        && (r.event.id == ForApproval(id, TagDeniedAbandon) <==> d.DenyAbandon?)
        && (r.event.id == ForApproval(id, TagDeniedAlternate) <==> d.DenyAlternatePath?)
        && (r.event.id == ForApproval(id, TagTimeoutRetry) <==> d == TimeOut(true))
        && (r.event.id == ForApproval(id, TagTimeout) <==> d == TimeOut(false))
  {
    ResolveEffect(s, id, d, id.run);
  }

  /** The same for a request. */
  lemma {:induction false} RequestWritten(s: EngineState, a: Approval)
    requires WellFormed(s.table.rows)
    ensures var (s', r) := Request(s, a);
      var n := |RowsOf(s.table.rows, a.id.run)|;
      && s'.approvals[a.id] == Approval(a.id, Pending, a.capability, a.summary)
      && (r.Requested? ==>
            s'.table.rows ==
            s.table.rows + [Event(ForApproval(a.id, TagWaiting), a.id.run, n + 1, ApprovalWaiting(a.id))])
  {
    RequestEffect(s, a, a.id.run);
  }

  /** A resolution never closes its run, not even with run.cancelled or run.failed:
      events can still follow. */
  lemma ResolveLeavesRunOpen(s: EngineState, id: ApprovalId, d: Decision)
    requires WellFormed(s.table.rows) && IsPending(s, id) && !TerminalRun(s.table, id.run)
    ensures LogTheorems.OpenTable(Resolve(s, id, d).0.table, id.run)
  {
    ResolveEffect(s, id, d, id.run);
    LogTheorems.FrozenTableExactlyWhenTerminal(Resolve(s, id, d).0.table, id.run);
  }

  /** A second grant of a re-requested approval is saved and not logged: the event id
      is fixed per approval, and the first grant has used it. */
  lemma RegrantIsNotLogged(s: EngineState, a: Approval)
    requires WellFormed(s.table.rows) && !TerminalRun(s.table, a.id.run)
    requires !IdUsed(s.table.rows, ForApproval(a.id, TagWaiting))
    requires !IdUsed(s.table.rows, ForApproval(a.id, TagGranted))
    ensures var s1 := Request(s, a).0;
      var (s2, first) := Resolve(s1, a.id, Grant);
      var s3 := Request(s2, a).0;
      var (s4, second) := Resolve(s3, a.id, Grant);
      && first.Emitted? && second == ResolveRefused(RefusedDuplicateId)
      && s4.approvals[a.id].state == Granted && s4.table == s2.table
  {
    var n := MaxSeq(s.table.rows, a.id.run);
    var waiting := WaitingEvent(a.id, n);
    var s1 := Request(s, a).0;
    assert s1.table.rows == s.table.rows + [waiting];
    IdUsedSnoc(s.table.rows, waiting, ForApproval(a.id, TagGranted));
    var s2 := Resolve(s1, a.id, Grant).0;
    var m := MaxSeq(s1.table.rows, a.id.run);
    var granted := DecisionEvent(a.id, Grant, m).(num := m + 1);
    assert s2.table.rows == s1.table.rows + [granted];
    IdUsedSnoc(s.table.rows, waiting, ForApproval(a.id, TagWaiting));
    IdUsedSnoc(s1.table.rows, granted, ForApproval(a.id, TagWaiting));
    IdUsedSnoc(s1.table.rows, granted, ForApproval(a.id, TagGranted));
  }
}
