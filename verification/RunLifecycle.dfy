/** The lifecycle verbs start, resume and cancel, and crash recovery, as writers of the log. */
module RunLifecycle {
  import opened Prelude
  import opened RunEvents
  import opened EventLog
  import opened Database
  import LogTheorems

  datatype LifecycleError =
    | InvalidResumeKind | RunNotFound | RunAlreadyTerminal
    | DuplicateRun | NotAtSeqZero | AppendRefused(outcome: AppendOutcome)

  predicate LifecycleKind(kind: ResumeKind) {
    kind.OperatorResume? || kind.SchedulerWakeup? || kind.WorkerRecovery? || kind.TransportRebind?
  }

  /** Whether a run row exists in a non-terminal state. */
  predicate Live(t: Table, run: RunId) {
    run in t.runs && !Terminal(t.runs[run])
  }

  class RunLifecycleService {
    const db: Session

    constructor (db: Session)
      ensures this.db == db
    {
      this.db := db;
    }

    /** `start` puts run.created at seq 1 of an empty log, and succeeds exactly when the
        run id, its log and its event id are all unused. */
    method Start(run: RunId) returns (r: Result<Event, LifecycleError>)
      requires db.Valid()
      modifies db
      ensures db.Valid()
      ensures r.Ok? <==>
        run !in old(db.runs) && RowsOf(old(db.rows), run) == [] && !IdUsed(old(db.rows), ForRun(run, VerbCreated))
      ensures r.Ok? ==>
        && r.value == Event(ForRun(run, VerbCreated), run, 1, RunCreated)
        && db.rows == old(db.rows) + [r.value] && RowsOf(db.rows, run) == [r.value]
      ensures r.Err? ==> db.rows == old(db.rows)
      ensures db.runs == if run in old(db.runs) then old(db.runs) else old(db.runs)[run := Created]
    {
      var created := db.CreateRun(run);
      if !created {
        return Err(DuplicateRun);
      }
      var last := db.LatestSeq(run);
      if last != 0 {
        return Err(NotAtSeqZero);
      }
      var event := Event(ForRun(run, VerbCreated), run, 1, RunCreated);
      RowsOfSnoc(db.rows, event, run);
      var out := db.Append(event);
      if !out.Appended? {
        return Err(AppendRefused(out));
      }
      return Ok(event);
    }

    /** `resume` succeeds exactly on a live run whose one resume event is not yet used. */
    method Resume(run: RunId, kind: ResumeKind) returns (r: Result<Event, LifecycleError>)
      requires db.Valid()
      modifies db`rows
      ensures db.Valid()
      ensures r.Ok? <==>
        LifecycleKind(kind) && Live(old(db.Log()), run) && !IdUsed(old(db.rows), ForRun(run, VerbResumed))
      ensures r.Ok? ==>
        var n := |RowsOf(old(db.rows), run)|;
        r.value == Event(ForRun(run, VerbResumed), run, n + 1, Resumed(kind, n)) && db.rows == old(db.rows) + [r.value]
      ensures r.Err? ==> db.rows == old(db.rows)
      ensures r == Err(InvalidResumeKind) <==> kind in {ApprovalGranted, ApprovalDeniedAlternatePath}
      ensures r == Err(RunNotFound) <==> LifecycleKind(kind) && run !in db.runs
      ensures r == Err(RunAlreadyTerminal) <==>
        LifecycleKind(kind) && run in db.runs && db.runs[run] in {Completed, Failed, Cancelled}
    {
      if !LifecycleKind(kind) {
        return Err(InvalidResumeKind);
      }
      if run !in db.runs {
        return Err(RunNotFound);
      }
      if Terminal(db.runs[run]) {
        return Err(RunAlreadyTerminal);
      }
      var latest := db.LatestSeq(run);
      var event := Event(ForRun(run, VerbResumed), run, latest + 1, Resumed(kind, latest));
      var out := db.Append(event);
      if !out.Appended? {
        return Err(AppendRefused(out));
      }
      return Ok(event);
    }

    /** `cancel` appends run.cancelled and leaves the stored state as it was, so the log
        can still grow after it. */
    method Cancel(run: RunId, reason: string) returns (r: Result<Event, LifecycleError>)
      requires db.Valid()
      modifies db`rows
      ensures db.Valid()
      ensures r.Ok? <==> Live(old(db.Log()), run) && !IdUsed(old(db.rows), ForRun(run, VerbCancelled))
      ensures r.Ok? ==>
        && r.value == Event(ForRun(run, VerbCancelled), run, |RowsOf(old(db.rows), run)| + 1,
                            RunCancelled(OperatorReason(reason)))
        && db.rows == old(db.rows) + [r.value]
        && Live(db.Log(), run) && LogTheorems.OpenTable(db.Log(), run)
      ensures r.Err? ==> db.rows == old(db.rows)
      ensures r == Err(RunNotFound) <==> run !in db.runs
      ensures r == Err(RunAlreadyTerminal) <==> run in db.runs && db.runs[run] in {Completed, Failed, Cancelled}
    {
      if run !in db.runs {
        return Err(RunNotFound);
      }
      if Terminal(db.runs[run]) {
        return Err(RunAlreadyTerminal);
      }
      var latest := db.LatestSeq(run);
      var event := Event(ForRun(run, VerbCancelled), run, latest + 1, RunCancelled(OperatorReason(reason)));
      var out := db.Append(event);
      if !out.Appended? {
        return Err(AppendRefused(out));
      }
      LogTheorems.FrozenTableExactlyWhenTerminal(db.Log(), run);
      return Ok(event);
    }
  }

  /** Any other event with an unused id is stored after run.cancelled. */
  lemma {:induction false} EventsFollowCancelled(t: Table, run: RunId, reason: string, event: Event)
    requires WellFormed(t.rows) && Live(t, run) && event.run == run && !IdUsed(t.rows, event.id)
    requires !IdUsed(t.rows, ForRun(run, VerbCancelled)) && event.id != ForRun(run, VerbCancelled)
    ensures var n := |RowsOf(t.rows, run)|;
      var (t1, first) := Append(t, Event(ForRun(run, VerbCancelled), run, n + 1, RunCancelled(OperatorReason(reason))));
      var (t2, second) := Append(t1, event);
      && first.Appended? && second.Appended?
      && RowsOf(t2.rows, run) == RowsOf(t.rows, run) + [first.event, second.event]
  {
    var n := |RowsOf(t.rows, run)|;
    var cancelled := Event(ForRun(run, VerbCancelled), run, n + 1, RunCancelled(OperatorReason(reason)));
    AppendTwice(t, cancelled, event);
  }

  // ---- crash recovery ----

  /** A pending-runs entry, with the hash of the manifest that is stored for its run. */
  datatype PendingRun = PendingRun(run: RunId, expectedHash: Option<string>, checkpointRun: Option<RunId>,
      actualHash: string)

  datatype RecoveryError = CrossRunCheckpoint | ManifestChanged | BlockedEventRefused(outcome: AppendOutcome)

  datatype Fate = Skipped | Recovered | Blocked | Raised(error: RecoveryError)

  function BlockedEvent(rows: seq<Event>, run: RunId): Event {
    Event(ForRun(run, VerbResumeBlocked), run, MaxSeq(rows, run) + 1, Progress(Execute, ResumeBlocked))
  }

  function ResumeEvent(rows: seq<Event>, run: RunId): Event {
    var latest := MaxSeq(rows, run);
    Event(ForRun(run, VerbResumed), run, latest + 1, Resumed(WorkerRecovery, latest))
  }

  /** What one entry does to the log. */
  function Recover(t: Table, p: PendingRun): (Table, Fate) {
    if !Live(t, p.run) then (t, Skipped)
    else if p.checkpointRun.Some? && p.checkpointRun.value != p.run then (t, Raised(CrossRunCheckpoint))
    else if p.expectedHash.Some? && p.expectedHash.value != p.actualHash then (t, Raised(ManifestChanged))
    else
      var (t1, out) := Append(t, ResumeEvent(t.rows, p.run));
      if out.Appended? then (t1, Recovered)
      else
        var (t2, out2) := Append(t1, BlockedEvent(t1.rows, p.run));
        if out2.Appended? then (t2, Blocked) else (t2, Raised(BlockedEventRefused(out2)))
  }

  /** All entries in order, stopping at the first that raises. */
  function RecoverAll(t: Table, ps: seq<PendingRun>): (Table, seq<Fate>)
    decreases |ps|
  {
    if ps == [] then (t, [])
    else
      var (t1, fate) := Recover(t, ps[0]);
      if fate.Raised? then (t1, [fate])
      else
        var (t2, fates) := RecoverAll(t1, ps[1..]);
        (t2, [fate] + fates)
  }

  function RecoveredRuns(ps: seq<PendingRun>, fates: seq<Fate>): seq<RunId>
    requires |fates| <= |ps|
  {
    if fates == [] then []
    else
      var n := |fates| - 1;
      RecoveredRuns(ps, fates[..n]) + if fates[n].Recovered? then [ps[n].run] else []
  }

  lemma {:induction false} RecoverNext(t: Table, ps: seq<PendingRun>, i: nat)
    requires i < |ps|
    ensures var (t1, fate) := Recover(t, ps[i]);
      var rest := RecoverAll(t1, ps[i + 1..]);
      RecoverAll(t, ps[i..]) == if fate.Raised? then (t1, [fate]) else (rest.0, [fate] + rest.1)
  {
    assert ps[i..][1..] == ps[i + 1..];
  }

  lemma {:induction false} RecoverAllLength(t: Table, ps: seq<PendingRun>)
    ensures |RecoverAll(t, ps).1| <= |ps|
    decreases |ps|
  {
    if ps == [] {
    } else {
      RecoverAllLength(Recover(t, ps[0]).0, ps[1..]);
    }
  }

  class ResumeService {
    const db: Session
    const lifecycle: RunLifecycleService

    constructor (db: Session, lifecycle: RunLifecycleService)
      requires lifecycle.db == db
      ensures this.db == db && this.lifecycle == lifecycle
    {
      this.db := db;
      this.lifecycle := lifecycle;
    }

    method EmitResumeBlocked(run: RunId) returns (out: AppendOutcome)
      requires db.Valid()
      modifies db`rows
      ensures db.Valid()
      ensures (db.Log(), out) == Append(old(db.Log()), BlockedEvent(old(db.rows), run))
    {
      MaxSeqIsLength(db.rows, run);
      var latest := db.LatestSeq(run);
      out := db.Append(Event(ForRun(run, VerbResumeBlocked), run, latest + 1, Progress(Execute, ResumeBlocked)));
    }

    method RecoverOne(p: PendingRun) returns (fate: Fate)
      requires db.Valid() && lifecycle.db == db
      modifies db`rows
      ensures db.Valid()
      ensures (db.Log(), fate) == Recover(old(db.Log()), p)
    {
      if p.run !in db.runs || Terminal(db.runs[p.run]) {
        return Skipped;
      }
      if p.checkpointRun.Some? && p.checkpointRun.value != p.run {
        return Raised(CrossRunCheckpoint);
      }
      if p.expectedHash.Some? && p.actualHash != p.expectedHash.value {
        return Raised(ManifestChanged);
      }
      MaxSeqIsLength(db.rows, p.run);
      AppendEffect(db.Log(), ResumeEvent(db.rows, p.run));
      var r := lifecycle.Resume(p.run, WorkerRecovery);
      if r.Ok? {
        return Recovered;
      }
      var out := EmitResumeBlocked(p.run);
      fate := if out.Appended? then Blocked else Raised(BlockedEventRefused(out));
    }

    /** `rehydrate_all`. */
    method RehydrateAll(pending: seq<PendingRun>) returns (r: Result<seq<RunId>, RecoveryError>)
      requires db.Valid() && lifecycle.db == db
      modifies db`rows
      ensures db.Valid()
      ensures var (table, fates) := RecoverAll(old(db.Log()), pending);
        && db.Log() == table
        && |fates| <= |pending|
        && r ==
           if fates != [] && fates[|fates| - 1].Raised? then Err(fates[|fates| - 1].error)
           else Ok(RecoveredRuns(pending, fates))
    {
      var resumed: seq<RunId> := [];
      ghost var fates: seq<Fate> := [];
      var i := 0;
      assert pending[0..] == pending;
      assert fates + RecoverAll(db.Log(), pending).1 == RecoverAll(db.Log(), pending).1;
      while i < |pending|
        invariant 0 <= i <= |pending| && |fates| == i
        invariant db.Valid()
        invariant forall k :: 0 <= k < i ==> !fates[k].Raised?
        invariant resumed == RecoveredRuns(pending, fates)
        invariant RecoverAll(old(db.Log()), pending) ==
          (RecoverAll(db.Log(), pending[i..]).0, fates + RecoverAll(db.Log(), pending[i..]).1)
        decreases |pending| - i
      {
        RecoverNext(db.Log(), pending, i);
        ghost var rest := RecoverAll(Recover(db.Log(), pending[i]).0, pending[i + 1..]).1;
        var fate := RecoverOne(pending[i]);
        ghost var done := fates;
        fates := fates + [fate];
        assert fates[..i] == done;
        if fate.Raised? {
          return Err(fate.error);
        }
        assert done + ([fate] + rest) == fates + rest;
        if fate.Recovered? {
          resumed := resumed + [pending[i].run];
        }
        i := i + 1;
      }
      assert fates + [] == fates;
      r := Ok(resumed);
    }
  }

  ghost predicate Clean(p: PendingRun) {
    && (p.checkpointRun.None? || p.checkpointRun.value == p.run)
    && (p.expectedHash.None? || p.expectedHash.value == p.actualHash)
  }

  lemma FateRecovered(t: Table, p: PendingRun)
    requires WellFormed(t.rows) && Live(t, p.run) && Clean(p) && !IdUsed(t.rows, ForRun(p.run, VerbResumed))
    ensures var (t', fate) := Recover(t, p);
      && fate == Recovered && t' == t.(rows := t.rows + [ResumeEvent(t.rows, p.run)]) && WellFormed(t'.rows)
  {
    AppendEffect(t, ResumeEvent(t.rows, p.run));
  }

  lemma FateBlocked(t: Table, p: PendingRun)
    requires WellFormed(t.rows) && Live(t, p.run) && Clean(p) && IdUsed(t.rows, ForRun(p.run, VerbResumed))
    requires !IdUsed(t.rows, ForRun(p.run, VerbResumeBlocked))
    ensures var (t', fate) := Recover(t, p);
      && fate == Blocked && t' == t.(rows := t.rows + [BlockedEvent(t.rows, p.run)]) && WellFormed(t'.rows)
  {
    AppendEffect(t, BlockedEvent(t.rows, p.run));
  }

  lemma FateRaised(t: Table, p: PendingRun)
    requires Live(t, p.run) && Clean(p) && IdUsed(t.rows, ForRun(p.run, VerbResumed))
    requires IdUsed(t.rows, ForRun(p.run, VerbResumeBlocked))
    ensures Recover(t, p) == (t, Raised(BlockedEventRefused(RefusedDuplicateId)))
  {
  }

  /** The fate of a clean entry for a live run depends only on which of the run's two
      fixed event ids are used up. */
  lemma RecoverFate(t: Table, p: PendingRun)
    requires WellFormed(t.rows) && Live(t, p.run) && Clean(p)
    ensures var (t', fate) := Recover(t, p);
      var resumed, blocked := IdUsed(t.rows, ForRun(p.run, VerbResumed)),
        IdUsed(t.rows, ForRun(p.run, VerbResumeBlocked));
      && WellFormed(t'.rows) && t'.runs == t.runs
      && (fate == Recovered <==> !resumed)
      && (fate == Blocked <==> resumed && !blocked)
      && (fate == Raised(BlockedEventRefused(RefusedDuplicateId)) <==> resumed && blocked)
      && (!resumed ==> t'.rows == t.rows + [ResumeEvent(t.rows, p.run)])
      && (resumed && !blocked ==> t'.rows == t.rows + [BlockedEvent(t.rows, p.run)])
      && (resumed && blocked ==> t' == t)
  {
    if !IdUsed(t.rows, ForRun(p.run, VerbResumed)) {
      FateRecovered(t, p);
    } else if !IdUsed(t.rows, ForRun(p.run, VerbResumeBlocked)) {
      FateBlocked(t, p);
    } else {
      FateRaised(t, p);
    }
  }

  /** When an entry is passed over or raises before the log is touched, in the order of the checks. */
  lemma RecoverRefusals(t: Table, p: PendingRun)
    requires WellFormed(t.rows)
    ensures var (t', fate) := Recover(t, p);
      var open := p.run in t.runs && t.runs[p.run] in {Created, Planning, Executing, WaitingApproval};
      var crossed := p.checkpointRun.Some? && p.checkpointRun.value != p.run;
      var changed := p.expectedHash.Some? && p.expectedHash.value != p.actualHash;
      && (fate == Skipped <==> !open)
      && (fate == Raised(CrossRunCheckpoint) <==> open && crossed)
      && (fate == Raised(ManifestChanged) <==> open && !crossed && changed)
      && (!open || crossed || changed ==> t' == t)
  {
    if Live(t, p.run) && Clean(p) {
      RecoverFate(t, p);
    }
  }

  /** The table before entry i. */
  function TableBefore(t: Table, ps: seq<PendingRun>, i: nat): Table
    requires i <= |ps|
  {
    if i == 0 then t else Recover(TableBefore(t, ps, i - 1), ps[i - 1]).0
  }

  lemma {:induction false} ShiftTable(t: Table, ps: seq<PendingRun>, i: nat)
    requires i < |ps|
    ensures TableBefore(t, ps, i + 1) == TableBefore(Recover(t, ps[0]).0, ps[1..], i)
  {
    if i > 0 {
      ShiftTable(t, ps, i - 1);
    }
  }

  /** Entry i is recovered on the table that the entries before it have left, and only the
      last one processed can raise. */
  lemma {:induction false} FatesInOrder(t: Table, ps: seq<PendingRun>, i: nat)
    requires i < |RecoverAll(t, ps).1| <= |ps|
    ensures var fates := RecoverAll(t, ps).1;
      fates[i] == Recover(TableBefore(t, ps, i), ps[i]).1 && (i < |fates| - 1 ==> !fates[i].Raised?)
    decreases i
  {
    if i > 0 {
      var t1 := Recover(t, ps[0]).0;
      RecoverAllLength(t1, ps[1..]);
      FatesInOrder(t1, ps[1..], i - 1);
      ShiftTable(t, ps, i - 1);
    }
  }

  /** All entries are processed unless one raises, and the table is what they have left. */
  lemma {:induction false} RecoverAllEnds(t: Table, ps: seq<PendingRun>)
    ensures var (t', fates) := RecoverAll(t, ps);
      && |fates| <= |ps| && t' == TableBefore(t, ps, |fates|)
      && (|fates| < |ps| ==> fates != [] && fates[|fates| - 1].Raised?)
    decreases |ps|
  {
    if ps == [] {
    } else {
      var (t1, fate) := Recover(t, ps[0]);
      if fate.Raised? {
        assert TableBefore(t, ps, 1) == Recover(TableBefore(t, ps, 0), ps[0]).0;
      } else {
        RecoverAllEnds(t1, ps[1..]);
        ShiftTable(t, ps, |RecoverAll(t1, ps[1..]).1|);
      }
    }
  }

  /** The runs returned are those of the recovered entries. */
  lemma {:induction false} RecoveredRunsListed(ps: seq<PendingRun>, fates: seq<Fate>, run: RunId)
    requires |fates| <= |ps|
    ensures run in RecoveredRuns(ps, fates) <==>
      exists i :: 0 <= i < |fates| && fates[i] == Recovered && ps[i].run == run
  {
    if fates == [] {
    } else {
      var n := |fates| - 1;
      RecoveredRunsListed(ps, fates[..n], run);
      assert forall i :: 0 <= i < n ==> fates[..n][i] == fates[i];
    }
  }

  /** There is one for each of them. */
  lemma {:induction false} RecoveredRunsCounted(ps: seq<PendingRun>, fates: seq<Fate>)
    requires |fates| <= |ps|
    ensures |RecoveredRuns(ps, fates)| == |set i | 0 <= i < |fates| && fates[i] == Recovered|
  {
    if fates == [] {
    } else {
      var n := |fates| - 1;
      RecoveredRunsCounted(ps, fates[..n]);
      var before := set i | 0 <= i < n && fates[..n][i] == Recovered;
      assert forall i :: 0 <= i < n ==> fates[..n][i] == fates[i];
      assert (set i | 0 <= i < |fates| && fates[i] == Recovered) ==
        before + if fates[n] == Recovered then {n} else {};
    }
  }

  /** They are listed in the order of the entries. */
  lemma {:induction false} RecoveredRunAt(ps: seq<PendingRun>, fates: seq<Fate>, i: nat)
    requires i < |fates| <= |ps| && fates[i] == Recovered
    ensures var k := |set j | 0 <= j < i && fates[j] == Recovered|;
      k < |RecoveredRuns(ps, fates)| && RecoveredRuns(ps, fates)[k] == ps[i].run
  {
    var n := |fates| - 1;
    assert forall j :: 0 <= j < n ==> fates[..n][j] == fates[j];
    if i == n {
      RecoveredRunsCounted(ps, fates[..n]);
      assert (set j | 0 <= j < n && fates[..n][j] == Recovered) == set j | 0 <= j < i && fates[j] == Recovered;
    } else {
      RecoveredRunAt(ps, fates[..n], i);
      assert (set j | 0 <= j < i && fates[..n][j] == Recovered) == set j | 0 <= j < i && fates[j] == Recovered;
    }
  }

  /** Recovering uses up the resume id and no other. */
  lemma AfterRecovered(t: Table, p: PendingRun)
    requires WellFormed(t.rows) && Live(t, p.run) && Clean(p) && !IdUsed(t.rows, ForRun(p.run, VerbResumed))
    ensures var t1 := Recover(t, p).0;
      && IdUsed(t1.rows, ForRun(p.run, VerbResumed))
      && (IdUsed(t1.rows, ForRun(p.run, VerbResumeBlocked)) <==> IdUsed(t.rows, ForRun(p.run, VerbResumeBlocked)))
  {
    RecoverFate(t, p);
    IdUsedSnoc(t.rows, ResumeEvent(t.rows, p.run), ForRun(p.run, VerbResumed));
    IdUsedSnoc(t.rows, ResumeEvent(t.rows, p.run), ForRun(p.run, VerbResumeBlocked));
  }

  /** Being blocked uses up the other one. */
  lemma AfterBlocked(t: Table, p: PendingRun)
    requires WellFormed(t.rows) && Live(t, p.run) && Clean(p) && IdUsed(t.rows, ForRun(p.run, VerbResumed))
    requires !IdUsed(t.rows, ForRun(p.run, VerbResumeBlocked))
    ensures var t1 := Recover(t, p).0;
      IdUsed(t1.rows, ForRun(p.run, VerbResumed)) && IdUsed(t1.rows, ForRun(p.run, VerbResumeBlocked))
  {
    RecoverFate(t, p);
    IdUsedSnoc(t.rows, BlockedEvent(t.rows, p.run), ForRun(p.run, VerbResumed));
    IdUsedSnoc(t.rows, BlockedEvent(t.rows, p.run), ForRun(p.run, VerbResumeBlocked));
  }

  /** A run recovers once: at the next start it is marked blocked, and from the third
      start on recovery raises and leaves the log alone. */
  lemma OnlyFirstRecoverySucceeds(t: Table, p: PendingRun)
    requires WellFormed(t.rows) && Live(t, p.run) && Clean(p)
    requires !IdUsed(t.rows, ForRun(p.run, VerbResumed)) && !IdUsed(t.rows, ForRun(p.run, VerbResumeBlocked))
    ensures var (t1, f1) := Recover(t, p);
      var (t2, f2) := Recover(t1, p);
      var (t3, f3) := Recover(t2, p);
      f1 == Recovered && f2 == Blocked && f3 == Raised(BlockedEventRefused(RefusedDuplicateId)) && t3 == t2
  {
    RecoverFate(t, p);
    AfterRecovered(t, p);
    var t1 := Recover(t, p).0;
    RecoverFate(t1, p);
    AfterBlocked(t1, p);
    RecoverFate(Recover(t1, p).0, p);
  }
}
