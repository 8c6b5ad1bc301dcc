/** What any number of overlapping resolutions of one request leave behind, whatever the
    order of their remaining steps and whatever happens to other approvals meanwhile. */
module ApprovalOverlap {
  import opened Prelude
  import opened RunEvents
  import opened EventLog
  import opened Database
  import opened ApprovalEngine
  import opened ApprovalRaces

  // ---- the decisions a log holds ----

  /** The decision tags logged for one approval, in order. */
  function LoggedTags(rows: seq<Event>, id: ApprovalId): seq<ApprovalTag> {
    if rows == [] then []
    else
      var n := |rows| - 1;
      LoggedTags(rows[..n], id) + TagsIn(rows[n], id)
  }

  function TagsIn(e: Event, id: ApprovalId): seq<ApprovalTag> {
    if e.id.ForApproval? && e.id.approval == id && e.id.tag != TagWaiting then [e.id.tag] else []
  }

  lemma LoggedTagsSnoc(rows: seq<Event>, e: Event, id: ApprovalId)
    ensures LoggedTags(rows + [e], id) == LoggedTags(rows, id) + TagsIn(e, id)
  {
    assert (rows + [e])[..|rows|] == rows;
  }

  lemma {:induction false} LoggedExactlyWhenUsed(rows: seq<Event>, id: ApprovalId, tag: ApprovalTag)
    requires tag != TagWaiting
    ensures tag in LoggedTags(rows, id) <==> IdUsed(rows, ForApproval(id, tag))
  {
    if rows == [] {
    } else {
      var n := |rows| - 1;
      LoggedExactlyWhenUsed(rows[..n], id, tag);
      IdUsedSnoc(rows[..n], rows[n], ForApproval(id, tag));
      assert rows == rows[..n] + [rows[n]];
    }
  }

  /** The approval state that a decision tag stands for. */
  function StateOfTag(tag: ApprovalTag): ApprovalState {
    match tag
    case TagWaiting => Pending
    case TagGranted => Granted
    case TagDeniedAbandon => Denied
    case TagDeniedAlternate => Denied
    case TagTimeoutRetry => TimedOut
    case TagTimeout => TimedOut
  }

  lemma TagFixesState(d: Decision)
    ensures TagOf(d) != TagWaiting && StateOfTag(TagOf(d)) == StateAfter(d)
  {
  }

  /** First occurrences only, in order. */
  function Distinct(tags: seq<ApprovalTag>): seq<ApprovalTag> {
    if tags == [] then []
    else
      var n := |tags| - 1;
      var before := Distinct(tags[..n]);
      if tags[n] in tags[..n] then before else before + [tags[n]]
  }

  lemma {:induction false} DistinctSame(tags: seq<ApprovalTag>, tag: ApprovalTag)
    ensures tag in Distinct(tags) <==> tag in tags
  {
    if tags == [] {
    } else {
      var n := |tags| - 1;
      DistinctSame(tags[..n], tag);
      assert tags == tags[..n] + [tags[n]];
    }
  }

  lemma DistinctSnoc(tags: seq<ApprovalTag>, tag: ApprovalTag)
    ensures Distinct(tags + [tag]) == if tag in tags then Distinct(tags) else Distinct(tags) + [tag]
  {
    assert (tags + [tag])[..|tags|] == tags;
  }

  /** One more tag, none of the earlier ones being in `base`. */
  lemma DistinctGrows(base: seq<ApprovalTag>, tags: seq<ApprovalTag>, tag: ApprovalTag)
    requires tag !in base
    ensures var logged := base + Distinct(tags);
      base + Distinct(tags + [tag]) == if tag in logged then logged else logged + [tag]
  {
    DistinctSame(tags, tag);
    DistinctSnoc(tags, tag);
  }

  lemma DistinctTwo(x: ApprovalTag, y: ApprovalTag)
    ensures Distinct([x, y]) == if x == y then [x] else [x, y]
  {
    assert [x, y][..1] == [x] && [x][..0] == [];
    assert Distinct([x]) == [x];
  }

  // ---- calls ----

  /** A resolve call of this approval between two of its steps. */
  predicate About(f: Flight, id: ApprovalId) {
    match f
    case Guarded(i, _, _) => i == id
    case Saved(out) => out.Decided? && out.id == id
    case Sequenced(out, _) => out.Decided? && out.id == id
  }

  function DecisionOf(f: Flight, id: ApprovalId): Decision
    requires About(f, id)
  {
    match f
    case Guarded(_, _, d) => d
    case Saved(out) => out.decision
    case Sequenced(out, _) => out.decision
  }

  predicate Resolving(s: Race, c: CallId, id: ApprovalId) {
    c in s.flights && About(s.flights[c], id)
  }

  predicate CanEmit(s: Race, c: CallId, id: ApprovalId) {
    Resolving(s, c, id) && s.flights[c].Sequenced?
  }

  /** The call that saved a decision on this approval last. */
  function LastSaver(s: Race, steps: seq<Step>, id: ApprovalId): Option<CallId> {
    if steps == [] then None
    else
      var n := |steps| - 1;
      if steps[n].SaveDecision? && HasGuarded(Exec(s, steps[..n]), steps[n].c, id) then Some(steps[n].c)
      else LastSaver(s, steps[..n], id)
  }

  /** The calls that tried to append their decision on this approval, in order. */
  function Emitters(s: Race, steps: seq<Step>, id: ApprovalId): seq<CallId> {
    if steps == [] then []
    else
      var n := |steps| - 1;
      Emitters(s, steps[..n], id) +
      if steps[n].Emit? && CanEmit(Exec(s, steps[..n]), steps[n].c, id) then [steps[n].c] else []
  }

  /** No further call on this approval begins. */
  ghost predicate NoNewcomer(steps: seq<Step>, id: ApprovalId) {
    forall i :: 0 <= i < |steps| ==> !Begins(steps[i], id)
  }

  predicate Begins(step: Step, id: ApprovalId) {
    (step.Guard? && step.id == id) || (step.SaveRequest? && step.approval.id == id)
  }

  function TagsOf(calls: map<CallId, Decision>, cs: seq<CallId>): seq<ApprovalTag>
    requires forall i :: 0 <= i < |cs| ==> cs[i] in calls
  {
    seq(|cs|, i requires 0 <= i < |cs| => TagOf(calls[cs[i]]))
  }

  lemma TagsOfSnoc(calls: map<CallId, Decision>, cs: seq<CallId>, c: CallId)
    requires c in calls && forall i :: 0 <= i < |cs| ==> cs[i] in calls
    ensures TagsOf(calls, cs + [c]) == TagsOf(calls, cs) + [TagOf(calls[c])]
  {
  }

  // ---- the overlap ----

  /** `calls` are the calls that have passed the guard of one request and saved nothing
      yet: no other resolution is in flight, and none of their tags is logged. */
  ghost predicate Start(s: Race, id: ApprovalId, calls: map<CallId, Decision>) {
    && calls.Keys != {}
    && !TerminalRun(s.engine.table, id.run)
    && (forall c :: Resolving(s, c, id) <==> c in calls)
    && (forall c :: c in calls ==> HasGuarded(s, c, id) && s.flights[c].decision == calls[c])
    && (forall c :: c in calls ==> TagOf(calls[c]) !in LoggedTags(s.engine.table.rows, id))
  }

  ghost predicate FlightsOk(t: Race, id: ApprovalId, calls: map<CallId, Decision>, emitters: seq<CallId>) {
    && (forall c :: Resolving(t, c, id) ==> c in calls && DecisionOf(t.flights[c], id) == calls[c])
    && NoDup(emitters)
    && (forall c :: c in emitters <==> c in calls && !Resolving(t, c, id))
  }

  ghost predicate StoredOk(t: Race, id: ApprovalId, calls: map<CallId, Decision>, saver: Option<CallId>) {
    && (saver.None? ==> forall c :: c in calls ==> HasGuarded(t, c, id))
    && (saver.Some? ==>
          && saver.value in calls
          && id in t.engine.approvals && t.engine.approvals[id].state == StateAfter(calls[saver.value]))
  }

  ghost predicate LoggedOk(s: Race, t: Race, id: ApprovalId, calls: map<CallId, Decision>, emitters: seq<CallId>) {
    && t.engine.table.runs == s.engine.table.runs
    && (forall c :: c in emitters ==> c in calls)
    && LoggedTags(t.engine.table.rows, id) ==
       LoggedTags(s.engine.table.rows, id) + Distinct(TagsOf(calls, emitters))
  }

  lemma FlightsStep(t: Race, step: Step, id: ApprovalId, calls: map<CallId, Decision>, emitters: seq<CallId>)
    requires FlightsOk(t, id, calls, emitters) && !Begins(step, id)
    ensures FlightsOk(Next(t, step), id, calls,
      emitters + if step.Emit? && CanEmit(t, step.c, id) then [step.c] else [])
  {
    var t' := Next(t, step);
    var c := step.c;
    assert forall x :: x != c ==> (Resolving(t', x, id) <==> Resolving(t, x, id));
    if step.Emit? && CanEmit(t, c, id) {
      assert c !in emitters;
      assert forall x :: x in emitters + [c] <==> x in emitters || x == c;
    } else {
      assert Resolving(t', c, id) <==> Resolving(t, c, id);
      assert emitters + [] == emitters;
    }
  }

  lemma StoredStep(t: Race, step: Step, id: ApprovalId, calls: map<CallId, Decision>, saver: Option<CallId>)
    requires StoredOk(t, id, calls, saver) && !Begins(step, id)
    requires forall c :: Resolving(t, c, id) ==> c in calls && DecisionOf(t.flights[c], id) == calls[c]
    ensures StoredOk(Next(t, step), id, calls,
      if step.SaveDecision? && HasGuarded(t, step.c, id) then Some(step.c) else saver)
  {
    var t', c := Next(t, step), step.c;
    if step.SaveDecision? && HasGuarded(t, c, id) {
      assert Resolving(t, c, id);
    } else {
      assert forall x :: HasGuarded(t, x, id) ==> HasGuarded(t', x, id);
    }
  }

  /** An append for this approval is accepted exactly when its tag is not yet logged. */
  lemma EmitLogs(t: Race, c: CallId, id: ApprovalId)
    requires CanEmit(t, c, id) && !TerminalRun(t.engine.table, id.run)
    ensures var tags, tag := LoggedTags(t.engine.table.rows, id), TagOf(DecisionOf(t.flights[c], id));
      LoggedTags(Next(t, Emit(c)).engine.table.rows, id) == if tag in tags then tags else tags + [tag]
  {
    var rows, d := t.engine.table.rows, DecisionOf(t.flights[c], id);
    var event := EventOf(t.flights[c].out, t.flights[c].latest);
    TagFixesState(d);
    LoggedExactlyWhenUsed(rows, id, TagOf(d));
    LoggedTagsSnoc(rows, event.(num := MaxSeq(rows, event.run) + 1), id);
  }

  /** Every other step leaves the decisions logged for this approval alone. */
  lemma OthersLogNothing(t: Race, step: Step, id: ApprovalId)
    requires !(step.Emit? && CanEmit(t, step.c, id))
    ensures LoggedTags(Next(t, step).engine.table.rows, id) == LoggedTags(t.engine.table.rows, id)
  {
    if step.Emit? && step.c in t.flights && t.flights[step.c].Sequenced? {
      var rows, event := t.engine.table.rows, EventOf(t.flights[step.c].out, t.flights[step.c].latest);
      LoggedTagsSnoc(rows, event.(num := MaxSeq(rows, event.run) + 1), id);
    }
  }

  lemma LoggedEmit(s: Race, t: Race, c: CallId, id: ApprovalId, calls: map<CallId, Decision>, emitters: seq<CallId>)
    requires LoggedOk(s, t, id, calls, emitters) && !TerminalRun(s.engine.table, id.run)
    requires CanEmit(t, c, id) && c in calls && DecisionOf(t.flights[c], id) == calls[c]
    requires TagOf(calls[c]) !in LoggedTags(s.engine.table.rows, id)
    ensures LoggedOk(s, Next(t, Emit(c)), id, calls, emitters + [c])
  {
    var base, logged := LoggedTags(s.engine.table.rows, id), LoggedTags(t.engine.table.rows, id);
    var tags, tag := TagsOf(calls, emitters), TagOf(calls[c]);
    calc {
      LoggedTags(Next(t, Emit(c)).engine.table.rows, id);
      { EmitLogs(t, c, id); }
      if tag in logged then logged else logged + [tag];
      { DistinctGrows(base, tags, tag); }
      base + Distinct(tags + [tag]);
      { TagsOfSnoc(calls, emitters, c); }
      base + Distinct(TagsOf(calls, emitters + [c]));
    }
  }

  lemma LoggedStep(s: Race, t: Race, step: Step, id: ApprovalId, calls: map<CallId, Decision>, emitters: seq<CallId>)
    requires Start(s, id, calls) && LoggedOk(s, t, id, calls, emitters)
    requires forall c :: Resolving(t, c, id) ==> c in calls && DecisionOf(t.flights[c], id) == calls[c]
    ensures LoggedOk(s, Next(t, step), id, calls,
      emitters + if step.Emit? && CanEmit(t, step.c, id) then [step.c] else [])
  {
    if step.Emit? && CanEmit(t, step.c, id) {
      LoggedEmit(s, t, step.c, id, calls, emitters);
    } else {
      OthersLogNothing(t, step, id);
      assert emitters + [] == emitters;
    }
  }

  lemma {:induction false} OverlapKeeps(s: Race, steps: seq<Step>, id: ApprovalId, calls: map<CallId, Decision>)
    requires Start(s, id, calls) && NoNewcomer(steps, id)
    ensures var t, emitters := Exec(s, steps), Emitters(s, steps, id);
      && FlightsOk(t, id, calls, emitters) && StoredOk(t, id, calls, LastSaver(s, steps, id))
      && LoggedOk(s, t, id, calls, emitters)
  {
    if steps == [] {
      assert TagsOf(calls, []) == [];
    } else {
      var n := |steps| - 1;
      assert forall i :: 0 <= i < n ==> steps[..n][i] == steps[i];
      OverlapKeeps(s, steps[..n], id, calls);
      var t, emitters := Exec(s, steps[..n]), Emitters(s, steps[..n], id);
      FlightsStep(t, steps[n], id, calls, emitters);
      StoredStep(t, steps[n], id, calls, LastSaver(s, steps[..n], id));
      LoggedStep(s, t, steps[n], id, calls, emitters);
    }
  }

  /** However many resolutions of one request overlap, and in whatever order their steps
      fall: once all are through, each has tried to append once; the log has gained
      each of their tags once, in the order of the appends; and the stored decision is
      that of the call that saved last. */
  lemma OverlappingResolutions(s: Race, steps: seq<Step>, id: ApprovalId, calls: map<CallId, Decision>)
    requires Start(s, id, calls) && NoNewcomer(steps, id)
    requires forall c :: c in calls ==> !Resolving(Exec(s, steps), c, id)
    ensures var t, emitters, saver := Exec(s, steps), Emitters(s, steps, id), LastSaver(s, steps, id);
      && NoDup(emitters) && (forall c :: c in emitters <==> c in calls)
      && LoggedTags(t.engine.table.rows, id) ==
         LoggedTags(s.engine.table.rows, id) + Distinct(TagsOf(calls, emitters))
      && saver.Some? && saver.value in calls
      && id in t.engine.approvals && t.engine.approvals[id].state == StateAfter(calls[saver.value])
  {
    OverlapKeeps(s, steps, id, calls);
    var c :| c in calls;
    assert !Resolving(Exec(s, steps), c, id);
  }

  // ---- two calls ----

  lemma TwoElements(cs: seq<CallId>, a: CallId, b: CallId)
    requires a != b && NoDup(cs) && forall c :: c in cs <==> c == a || c == b
    ensures cs == [a, b] || cs == [b, a]
  {
    assert forall i :: 0 <= i < |cs| ==> cs[i] in cs;
    Pigeonhole(cs, {a, b});
    assert a in cs && b in cs;
    var i :| 0 <= i < |cs| && cs[i] == a;
    var j :| 0 <= j < |cs| && cs[j] == b;
  }

  /** The tags that two calls leave, in the order of their appends. */
  function TagsOfTwo(first: Decision, second: Decision): seq<ApprovalTag> {
    if TagOf(first) == TagOf(second) then [TagOf(first)] else [TagOf(first), TagOf(second)]
  }

  lemma DistinctOfTwo(calls: map<CallId, Decision>, first: CallId, second: CallId)
    requires first in calls && second in calls
    ensures Distinct(TagsOf(calls, [first, second])) == TagsOfTwo(calls[first], calls[second])
  {
    DistinctTwo(TagOf(calls[first]), TagOf(calls[second]));
    assert TagsOf(calls, [first, second]) == [TagOf(calls[first]), TagOf(calls[second])];
  }

  /** Of two decisions, the last tag logged stands for the state of the saved one exactly
      if both stand for one state or the saved one is the second. */
  lemma LastTagAgrees(base: seq<ApprovalTag>, first: Decision, second: Decision, saved: Decision)
    requires saved == first || saved == second
    ensures var tags := base + TagsOfTwo(first, second);
      StateOfTag(tags[|tags| - 1]) == StateAfter(saved) <==>
        StateAfter(first) == StateAfter(second) || StateAfter(saved) == StateAfter(second)
  {
    TagFixesState(first);
    TagFixesState(second);
  }

  lemma TwoFinish(s: Race, steps: seq<Step>, id: ApprovalId, calls: map<CallId, Decision>, a: CallId, b: CallId)
      returns (first: CallId, second: CallId, saver: CallId)
    requires a != b && calls.Keys == {a, b} && Start(s, id, calls) && NoNewcomer(steps, id)
    requires forall c :: c in calls ==> !Resolving(Exec(s, steps), c, id)
    ensures first in calls && second in calls && first != second && saver in calls
    ensures Emitters(s, steps, id) == [first, second] && LastSaver(s, steps, id) == Some(saver)
    ensures var t := Exec(s, steps);
      && LoggedTags(t.engine.table.rows, id) ==
         LoggedTags(s.engine.table.rows, id) + TagsOfTwo(calls[first], calls[second])
      && id in t.engine.approvals && t.engine.approvals[id].state == StateAfter(calls[saver])
  {
    OverlappingResolutions(s, steps, id, calls);
    TwoElements(Emitters(s, steps, id), a, b);
    first, second := Emitters(s, steps, id)[0], Emitters(s, steps, id)[1];
    saver := LastSaver(s, steps, id).value;
    DistinctOfTwo(calls, first, second);
  }

  /** Two overlapping resolutions of one request, their steps in any order: both tags are
      logged, in the order of the appends, exactly if they differ; the stored decision is
      the one saved last; and the last logged decision stands for the stored state
      exactly if both decisions do or the call that saved last also appended last. */
  lemma BothLoggedExactlyWhenTagsDiffer(s: Race, steps: seq<Step>, id: ApprovalId,
      a: CallId, da: Decision, b: CallId, db: Decision) returns (first: CallId, second: CallId, saver: CallId)
    requires a != b && Start(s, id, map[a := da, b := db]) && NoNewcomer(steps, id)
    requires !Resolving(Exec(s, steps), a, id) && !Resolving(Exec(s, steps), b, id)
    ensures first in {a, b} && second in {a, b} && first != second && saver in {a, b}
    ensures Emitters(s, steps, id) == [first, second] && LastSaver(s, steps, id) == Some(saver)
    ensures var calls, t := map[a := da, b := db], Exec(s, steps);
      var tags := LoggedTags(t.engine.table.rows, id);
      && tags == LoggedTags(s.engine.table.rows, id) + TagsOfTwo(calls[first], calls[second])
      && id in t.engine.approvals && t.engine.approvals[id].state == StateAfter(calls[saver])
      && (StateOfTag(tags[|tags| - 1]) == t.engine.approvals[id].state <==>
            StateAfter(da) == StateAfter(db) || saver == second)
  {
    var calls := map[a := da, b := db];
    assert calls.Keys == {a, b};
    first, second, saver := TwoFinish(s, steps, id, calls, a, b);
    LastTagAgrees(LoggedTags(s.engine.table.rows, id), calls[first], calls[second], calls[saver]);
  }

  /** Every pending approval with no resolution in flight can come to this. */
  lemma OverlapCanStart(s: Race, id: ApprovalId, a: CallId, da: Decision, b: CallId, db: Decision)
    requires IsPending(s.engine, id) && !TerminalRun(s.engine.table, id.run)
    requires a != b && a !in s.flights && b !in s.flights && forall c :: !Resolving(s, c, id)
    requires TagOf(da) !in LoggedTags(s.engine.table.rows, id) && TagOf(db) !in LoggedTags(s.engine.table.rows, id)
    ensures Start(Exec(s, [Guard(a, id, da), Guard(b, id, db)]), id, map[a := da, b := db])
  {
    BothCanGuard(s, a, da, b, db, id);
    var t := Exec(s, [Guard(a, id, da), Guard(b, id, db)]);
    assert a in map[a := da, b := db];
    assert forall c :: c != a && c != b ==> (Resolving(t, c, id) <==> Resolving(s, c, id));
  }

  // ---- the run's log when nothing else happens ----

  /** Only the remaining steps of these calls. */
  ghost predicate OnlyFinishes(steps: seq<Step>, calls: map<CallId, Decision>) {
    forall i :: 0 <= i < |steps| ==> Finishes(steps[i], calls)
  }

  predicate Finishes(step: Step, calls: map<CallId, Decision>) {
    (step.SaveDecision? || step.ReadSeq? || step.Emit?) && step.c in calls
  }

  ghost predicate Quiet(t: Race, id: ApprovalId, calls: map<CallId, Decision>) {
    forall c :: c in calls && c in t.flights ==> Resolving(t, c, id)
  }

  lemma OneMoreDecision(rows: seq<Event>, e: Event, id: ApprovalId)
    requires e.run == id.run && |TagsIn(e, id)| == 1
    ensures |RowsOf(rows + [e], id.run)| == |RowsOf(rows, id.run)| + 1
    ensures |LoggedTags(rows + [e], id)| == |LoggedTags(rows, id)| + 1
  {
    LoggedTagsSnoc(rows, e, id);
    RowsOfSnoc(rows, e, id.run);
  }

  lemma QuietStep(t: Race, step: Step, id: ApprovalId, calls: map<CallId, Decision>)
    requires Quiet(t, id, calls) && Finishes(step, calls)
    ensures Quiet(Next(t, step), id, calls)
    ensures var rows, rows', run := t.engine.table.rows, Next(t, step).engine.table.rows, id.run;
      |RowsOf(rows', run)| - |LoggedTags(rows', id)| == |RowsOf(rows, run)| - |LoggedTags(rows, id)|
  {
    if step.Emit? && step.c in t.flights && t.flights[step.c].Sequenced? {
      var rows, event := t.engine.table.rows, EventOf(t.flights[step.c].out, t.flights[step.c].latest);
      TagFixesState(DecisionOf(t.flights[step.c], id));
      OneMoreDecision(rows, event.(num := MaxSeq(rows, event.run) + 1), id);
    }
  }

  /** Then the run's log grows by exactly the logged decisions. */
  lemma {:induction false} QuietGrowth(s: Race, steps: seq<Step>, id: ApprovalId, calls: map<CallId, Decision>)
    requires Quiet(s, id, calls) && OnlyFinishes(steps, calls)
    ensures Quiet(Exec(s, steps), id, calls)
    ensures var rows, rows', run := s.engine.table.rows, Exec(s, steps).engine.table.rows, id.run;
      |RowsOf(rows', run)| - |LoggedTags(rows', id)| == |RowsOf(rows, run)| - |LoggedTags(rows, id)|
  {
    if steps == [] {
    } else {
      var n := |steps| - 1;
      assert forall i :: 0 <= i < n ==> steps[..n][i] == steps[i];
      QuietGrowth(s, steps[..n], id, calls);
      QuietStep(Exec(s, steps[..n]), steps[n], id, calls);
    }
  }

  /** In every order of the two calls' own steps the log grows by one event if the tags
      are equal and by two otherwise. */
  lemma TwoCallsGrowLog(s: Race, steps: seq<Step>, id: ApprovalId, a: CallId, da: Decision, b: CallId, db: Decision)
    requires a != b && Start(s, id, map[a := da, b := db]) && OnlyFinishes(steps, map[a := da, b := db])
    requires !Resolving(Exec(s, steps), a, id) && !Resolving(Exec(s, steps), b, id)
    ensures |RowsOf(Exec(s, steps).engine.table.rows, id.run)| ==
      |RowsOf(s.engine.table.rows, id.run)| + if TagOf(da) == TagOf(db) then 1 else 2
  {
    var calls := map[a := da, b := db];
    assert forall i :: 0 <= i < |steps| ==> Finishes(steps[i], calls) && !Begins(steps[i], id);
    QuietGrowth(s, steps, id, calls);
    var first, second, saver := BothLoggedExactlyWhenTagsDiffer(s, steps, id, a, da, b, db);
  }

  // ---- a run in which log and store disagree ----

  lemma {:induction false} ExecConcat(s: Race, xs: seq<Step>, ys: seq<Step>)
    ensures Exec(s, xs + ys) == Exec(Exec(s, xs), ys)
  {
    if ys == [] {
      assert xs + ys == xs;
    } else {
      var n := |ys| - 1;
      ExecConcat(s, xs, ys[..n]);
      assert (xs + ys)[..|xs + ys| - 1] == xs + ys[..n];
    }
  }

  lemma Exec8(s: Race, a: Step, b: Step, c: Step, d: Step, e: Step, f: Step, g: Step, h: Step)
    ensures Exec(s, [a, b] + [c, d] + [e, f] + [g, h]) ==
      Next(Next(Next(Next(Next(Next(Next(Next(s, a), b), c), d), e), f), g), h)
  {
    ExecConcat(s, [a, b] + [c, d] + [e, f], [g, h]);
    ExecConcat(s, [a, b] + [c, d], [e, f]);
    ExecConcat(s, [a, b], [c, d]);
    Exec2(s, a, b);
    Exec2(Exec(s, [a, b]), c, d);
    Exec2(Exec(Exec(s, [a, b]), [c, d]), e, f);
    Exec2(Exec(Exec(Exec(s, [a, b]), [c, d]), [e, f]), g, h);
  }

  function DisagreeingSteps(a: CallId, b: CallId, id: ApprovalId): seq<Step> {
    [Guard(a, id, Grant), Guard(b, id, DenyAbandon(""))] + [SaveDecision(a), SaveDecision(b)] +
    [ReadSeq(b), Emit(b)] + [ReadSeq(a), Emit(a)]
  }

  lemma AppendTwoTags(tags: seq<ApprovalTag>, x: ApprovalTag, y: ApprovalTag)
    ensures tags + [x] + [y] == tags + [x, y]
  {
  }

  lemma LoggedAfterSaves(s: Race, a: CallId, b: CallId, id: ApprovalId)
    requires a != b && a in s.flights && s.flights[a] == Saved(Decided(id, Grant))
    requires b in s.flights && s.flights[b] == Saved(Decided(id, DenyAbandon("")))
    requires !TerminalRun(s.engine.table, id.run)
    requires TagGranted !in LoggedTags(s.engine.table.rows, id)
    requires TagDeniedAbandon !in LoggedTags(s.engine.table.rows, id)
    ensures var t := Next(Next(Next(Next(s, ReadSeq(b)), Emit(b)), ReadSeq(a)), Emit(a));
      && t.engine.approvals == s.engine.approvals
      && LoggedTags(t.engine.table.rows, id) ==
         LoggedTags(s.engine.table.rows, id) + [TagDeniedAbandon, TagGranted]
  {
    var tags := LoggedTags(s.engine.table.rows, id);
    ReadThenEmit(s, b, id, DenyAbandon(""));
    var s1 := Next(Next(s, ReadSeq(b)), Emit(b));
    assert a in s1.flights && s1.flights[a] == Saved(Decided(id, Grant));
    assert LoggedTags(s1.engine.table.rows, id) == tags + [TagDeniedAbandon];
    ReadThenEmit(s1, a, id, Grant);
    AppendTwoTags(tags, TagDeniedAbandon, TagGranted);
  }

  /** From any pending approval of an open run a grant and a denial can both pass the
      guard so that the denial is stored and the grant is the last decision logged. */
  lemma LoggedAndStoredDisagree(s: Race, a: CallId, b: CallId, id: ApprovalId)
    requires IsPending(s.engine, id) && a != b && a !in s.flights && b !in s.flights
    requires !TerminalRun(s.engine.table, id.run)
    requires TagGranted !in LoggedTags(s.engine.table.rows, id)
    requires TagDeniedAbandon !in LoggedTags(s.engine.table.rows, id)
    ensures var t := Exec(s, DisagreeingSteps(a, b, id));
      && id in t.engine.approvals && t.engine.approvals[id].state == Denied
      && LoggedTags(t.engine.table.rows, id) ==
         LoggedTags(s.engine.table.rows, id) + [TagDeniedAbandon, TagGranted]
  {
    var deny := DenyAbandon("");
    Exec8(s, Guard(a, id, Grant), Guard(b, id, deny), SaveDecision(a), SaveDecision(b),
      ReadSeq(b), Emit(b), ReadSeq(a), Emit(a));
    var s1 := Next(Next(s, Guard(a, id, Grant)), Guard(b, id, deny));
    BothSaved(s1, a, b, id);
    LoggedAfterSaves(Next(Next(s1, SaveDecision(a)), SaveDecision(b)), a, b, id);
  }

  lemma BothSaved(s: Race, a: CallId, b: CallId, id: ApprovalId)
    requires a != b && HasGuarded(s, a, id) && HasGuarded(s, b, id)
    ensures var fa, fb := s.flights[a].decision, s.flights[b].decision;
      var t := Next(Next(s, SaveDecision(a)), SaveDecision(b));
      && t.engine.table == s.engine.table
      && a in t.flights && t.flights[a] == Saved(Decided(id, fa))
      && b in t.flights && t.flights[b] == Saved(Decided(id, fb))
      && id in t.engine.approvals && t.engine.approvals[id].state == StateAfter(fb)
  {
  }

  lemma ReadThenEmit(s: Race, c: CallId, id: ApprovalId, d: Decision)
    requires c in s.flights && s.flights[c] == Saved(Decided(id, d)) && !TerminalRun(s.engine.table, id.run)
    ensures var t, tags := Next(Next(s, ReadSeq(c)), Emit(c)), LoggedTags(s.engine.table.rows, id);
      && t.flights == s.flights - {c} && t.engine.approvals == s.engine.approvals
      && t.engine.table.runs == s.engine.table.runs
      && LoggedTags(t.engine.table.rows, id) == if TagOf(d) in tags then tags else tags + [TagOf(d)]
  {
    var s1 := Next(s, ReadSeq(c));
    assert CanEmit(s1, c, id) && DecisionOf(s1.flights[c], id) == d;
    EmitLogs(s1, c, id);
    assert s1.flights - {c} == s.flights - {c};
  }
}
