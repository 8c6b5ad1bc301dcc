/** Approval calls that overlap: `request` and `resolve` step by step, as every await
    lets other calls in. A step that is not enabled leaves the state as it is. */
module ApprovalRaces {
  import opened RunEvents
  import opened EventLog
  import opened Database
  import opened ApprovalEngine

  type CallId = nat

  /** The event a call still has to append. */
  datatype Out = Asked(id: ApprovalId) | Decided(id: ApprovalId, decision: Decision)

  /** A call between two of its steps. A guarded one keeps the approval as it read it. */
  datatype Flight =
    | Guarded(id: ApprovalId, existing: Approval, decision: Decision)
    | Saved(out: Out)
    | Sequenced(out: Out, latest: nat)

  datatype Race = Race(engine: EngineState, flights: map<CallId, Flight>)

  datatype Step =
    | Guard(c: CallId, id: ApprovalId, decision: Decision)
    | SaveDecision(c: CallId)
    | SaveRequest(c: CallId, approval: Approval)
    | ReadSeq(c: CallId)
    | Emit(c: CallId)

  function EventOf(out: Out, latest: nat): Event {
    match out
    case Asked(id) => WaitingEvent(id, latest)
    case Decided(id, d) => DecisionEvent(id, d, latest)
  }

  function RunOf(out: Out): RunId {
    out.id.run
  }

  function Saves(s: Race, id: ApprovalId, approval: Approval): EngineState {
    s.engine.(approvals := s.engine.approvals[id := approval])
  }

  function Next(s: Race, step: Step): Race {
    match step
    case Guard(c, id, d) =>
      if c in s.flights || !IsPending(s.engine, id) then s
      else s.(flights := s.flights[c := Guarded(id, s.engine.approvals[id], d)])
    case SaveDecision(c) =>
      if c !in s.flights || !s.flights[c].Guarded? then s
      else
        var f := s.flights[c];
        Race(Saves(s, f.id, f.existing.(state := StateAfter(f.decision))),
          s.flights[c := Saved(Decided(f.id, f.decision))])
    case SaveRequest(c, a) =>
      if c in s.flights then s
      else Race(Saves(s, a.id, a.(state := Pending)), s.flights[c := Saved(Asked(a.id))])
    case ReadSeq(c) =>
      if c !in s.flights || !s.flights[c].Saved? then s
      else
        var out := s.flights[c].out;
        s.(flights := s.flights[c := Sequenced(out, MaxSeq(s.engine.table.rows, RunOf(out)))])
    case Emit(c) =>
      if c !in s.flights || !s.flights[c].Sequenced? then s
      else
        var event := EventOf(s.flights[c].out, s.flights[c].latest);
        Race(s.engine.(table := Append(s.engine.table, event).0), s.flights - {c})
  }

  function Exec(s: Race, steps: seq<Step>): Race {
    if steps == [] then s else Next(Exec(s, steps[..|steps| - 1]), steps[|steps| - 1])
  }

  /** Call c has passed the guard of this approval and not yet saved its decision. */
  predicate HasGuarded(s: Race, c: CallId, id: ApprovalId) {
    c in s.flights && s.flights[c].Guarded? && s.flights[c].id == id
  }

  ghost predicate Requests(steps: seq<Step>, id: ApprovalId) {
    exists i :: 0 <= i < |steps| && steps[i].SaveRequest? && steps[i].approval.id == id
  }

  ghost predicate SavesDecisionOf(steps: seq<Step>, c: CallId) {
    exists i :: 0 <= i < |steps| && steps[i] == SaveDecision(c)
  }

  // ---- one call alone ----

  lemma {:induction false} Exec4(s: Race, a: Step, b: Step, c: Step, d: Step)
    ensures Exec(s, [a, b, c, d]) == Next(Next(Next(Next(s, a), b), c), d)
  {
    assert [a, b, c, d][..3] == [a, b, c] && [a, b, c][..2] == [a, b] && [a, b][..1] == [a] && [a][..0] == [];
    assert Exec(s, [a]) == Next(s, a);
    assert Exec(s, [a, b]) == Next(Next(s, a), b);
    assert Exec(s, [a, b, c]) == Next(Next(Next(s, a), b), c);
  }

  /** The steps of a resolve call with nothing in between are `resolve`. */
  lemma {:induction false} ResolveAlone(s: Race, c: CallId, id: ApprovalId, d: Decision)
    requires c !in s.flights
    ensures Exec(s, [Guard(c, id, d), SaveDecision(c), ReadSeq(c), Emit(c)]) == s.(engine := Resolve(s.engine, id, d).0)
  {
    Exec4(s, Guard(c, id, d), SaveDecision(c), ReadSeq(c), Emit(c));
    if IsPending(s.engine, id) {
      var existing := s.engine.approvals[id];
      var saved := Saves(s, id, existing.(state := StateAfter(d)));
      var s1 := Next(s, Guard(c, id, d));
      assert s1.flights[c] == Guarded(id, existing, d);
      var s2 := Next(s1, SaveDecision(c));
      assert s2.engine == saved && s2.flights[c] == Saved(Decided(id, d));
      var s3 := Next(s2, ReadSeq(c));
      assert s3.flights - {c} == s.flights;
    } else {
      assert Next(s, Guard(c, id, d)) == s;
    }
  }

  lemma {:induction false} Exec3(s: Race, a: Step, b: Step, c: Step)
    ensures Exec(s, [a, b, c]) == Next(Next(Next(s, a), b), c)
  {
    assert [a, b, c][..2] == [a, b];
    Exec2(s, a, b);
  }

  /** The steps of a request call with nothing in between are `request`. */
  lemma {:induction false} RequestAlone(s: Race, c: CallId, approval: Approval)
    requires c !in s.flights
    ensures Exec(s, [SaveRequest(c, approval), ReadSeq(c), Emit(c)]) == s.(engine := Request(s.engine, approval).0)
  {
    Exec3(s, SaveRequest(c, approval), ReadSeq(c), Emit(c));
    var s1 := Next(s, SaveRequest(c, approval));
    assert s1.flights[c] == Saved(Asked(approval.id));
    var s2 := Next(s1, ReadSeq(c));
    assert s2.flights - {c} == s.flights;
  }

  // ---- overlapping resolutions ----

  /** Without a request, an approval that is not pending stays so, whatever calls are in flight. */
  lemma {:induction false} StaysDecided(s: Race, steps: seq<Step>, id: ApprovalId)
    requires !IsPending(s.engine, id) && !Requests(steps, id)
    ensures !IsPending(Exec(s, steps).engine, id)
  {
    if steps == [] {
    } else {
      var n := |steps| - 1;
      assert forall i :: 0 <= i < n ==> steps[..n][i] == steps[i];
      StaysDecided(s, steps[..n], id);
    }
  }

  lemma {:induction false} GuardStep(s: Race, step: Step, c: CallId, id: ApprovalId)
    requires !IsPending(s.engine, id) && step != SaveDecision(c)
    ensures HasGuarded(Next(s, step), c, id) <==> HasGuarded(s, c, id)
  {
  }

  /** While the approval is decided no further call passes its guard, and a call that
      has passed it goes on to its save. */
  lemma {:induction false} GuardsStay(s: Race, steps: seq<Step>, c: CallId, id: ApprovalId)
    requires !IsPending(s.engine, id) && !Requests(steps, id) && !SavesDecisionOf(steps, c)
    ensures HasGuarded(Exec(s, steps), c, id) <==> HasGuarded(s, c, id)
  {
    if steps == [] {
    } else {
      var n := |steps| - 1;
      assert forall i :: 0 <= i < n ==> steps[..n][i] == steps[i];
      GuardsStay(s, steps[..n], c, id);
      StaysDecided(s, steps[..n], id);
      GuardStep(Exec(s, steps[..n]), steps[n], c, id);
    }
  }

  /** One request, two resolutions: after call a has saved its decision, and with no new
      request whatever else happens, call b saves another one exactly if it had passed
      the guard before a saved. */
  lemma {:induction false} SecondSaveExactlyWhenGuardedBefore(s: Race, a: CallId, b: CallId, id: ApprovalId,
      mid: seq<Step>)
    requires a != b && HasGuarded(s, a, id) && !Requests(mid, id) && !SavesDecisionOf(mid, b)
    ensures HasGuarded(Exec(Next(s, SaveDecision(a)), mid), b, id) <==> HasGuarded(s, b, id)
    ensures var s' := Exec(Next(s, SaveDecision(a)), mid);
      HasGuarded(s', b, id) ==>
        var d := s'.flights[b].decision;
        id in Next(s', SaveDecision(b)).engine.approvals &&
        Next(s', SaveDecision(b)).engine.approvals[id].state == StateAfter(d)
    ensures var s' := Exec(Next(s, SaveDecision(a)), mid);
      var saved := Next(s', SaveDecision(b)).engine.approvals;
      !HasGuarded(s', b, id) ==>
        && (id in saved <==> id in s'.engine.approvals)
        && (id in saved ==> saved[id] == s'.engine.approvals[id])
  {
    GuardsStay(Next(s, SaveDecision(a)), mid, b, id);
  }

  lemma {:induction false} Exec2(s: Race, a: Step, b: Step)
    ensures Exec(s, [a, b]) == Next(Next(s, a), b)
  {
    assert [a, b][..1] == [a] && [a][..0] == [];
    assert Exec(s, [a]) == Next(s, a);
  }

  /** From every pending approval two calls can pass the guard, whatever they decide. */
  lemma {:induction false} BothCanGuard(s: Race, a: CallId, da: Decision, b: CallId, db: Decision, id: ApprovalId)
    requires IsPending(s.engine, id) && a != b && a !in s.flights && b !in s.flights
    ensures var existing := s.engine.approvals[id];
      Exec(s, [Guard(a, id, da), Guard(b, id, db)]) ==
      s.(flights := s.flights[a := Guarded(id, existing, da)][b := Guarded(id, existing, db)])
  {
    Exec2(s, Guard(a, id, da), Guard(b, id, db));
  }
}
