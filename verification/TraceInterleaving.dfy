/** A service that writes a script of events to one run while any other writers, state
    updates and streams take steps in between. */
module TraceInterleaving {
  import opened RunEvents
  import opened EventLog
  import opened LogSystem
  import opened LogTheorems
  import Orchestration

  type Entry = Orchestration.Entry

  /** The steps of writer w, in order. */
  function OwnSteps(steps: seq<Step>, w: WriterId): seq<Step> {
    if steps == [] then []
    else
      var n := |steps| - 1;
      OwnSteps(steps[..n], w) + if IsOwn(steps[n], w) then [steps[n]] else []
  }

  predicate IsOwn(step: Step, w: WriterId) {
    (step.Read? || step.Write?) && step.w == w
  }

  /** Each entry takes a read of the latest seq and a write. */
  function ScriptStep(w: WriterId, run: RunId, script: seq<Entry>, k: nat): Step
    requires k < 2 * |script|
  {
    if k % 2 == 1 then Step.Write(w) else Step.Read(w, run, IntentOf(run, script[k / 2]))
  }

  function IntentOf(run: RunId, e: Entry): Intent {
    Note(ForRun(run, e.verb), e.body)
  }

  /** So far writer w has done a prefix of its script and nothing else. */
  ghost predicate Follows(steps: seq<Step>, w: WriterId, run: RunId, script: seq<Entry>) {
    var own := OwnSteps(steps, w);
    |own| <= 2 * |script| && forall k :: 0 <= k < |own| ==> own[k] == ScriptStep(w, run, script, k)
  }

  ghost predicate Accepted(s: Sys, step: Step) {
    step.Write? && step.w in s.writers && Append(s.table, MakeEvent(s.writers[step.w])).1.Appended?
  }

  /** No write of w has been refused; after a refusal the service stops. */
  ghost predicate NoRefusal(s: Sys, steps: seq<Step>, w: WriterId) {
    forall i :: 0 <= i < |steps| && steps[i] == Step.Write(w) ==> Accepted(Exec(s, steps[..i]), steps[i])
  }

  /** The first |pos| entries of the script stand in the log, in order, from `from` on. */
  ghost predicate Placed(log: seq<Event>, from: nat, run: RunId, script: seq<Entry>, pos: seq<nat>) {
    && |pos| <= |script|
    && (forall i :: 0 <= i < |pos| ==>
          && from <= pos[i] < |log|
          && log[pos[i]].id == ForRun(run, script[i].verb) && log[pos[i]].body == script[i].body)
    && (forall i, j :: 0 <= i < j < |pos| ==> pos[i] < pos[j])
  }

  ghost predicate Prepared(s: Sys, w: WriterId, run: RunId, e: Entry) {
    w in s.writers && s.writers[w].run == run && s.writers[w].intent == IntentOf(run, e)
  }

  lemma PlacedGrows(log: seq<Event>, log': seq<Event>, from: nat, run: RunId, script: seq<Entry>, pos: seq<nat>)
    requires Placed(log, from, run, script, pos) && log <= log'
    ensures Placed(log', from, run, script, pos)
  {
  }

  lemma PlacedSnoc(log: seq<Event>, e: Event, from: nat, run: RunId, script: seq<Entry>, pos: seq<nat>)
    requires Placed(log, from, run, script, pos) && from <= |log| && |pos| < |script|
    requires e.id == ForRun(run, script[|pos|].verb) && e.body == script[|pos|].body
    ensures Placed(log + [e], from, run, script, pos + [|log|])
  {
    var pos' := pos + [|log|];
    forall i | 0 <= i < |pos'|
      ensures from <= pos'[i] < |log + [e]|
      ensures (log + [e])[pos'[i]].id == ForRun(run, script[i].verb) && (log + [e])[pos'[i]].body == script[i].body
    {
    }
  }

  lemma FollowsPrefix(steps: seq<Step>, w: WriterId, run: RunId, script: seq<Entry>)
    requires steps != [] && Follows(steps, w, run, script)
    ensures var n := |steps| - 1;
      var own := OwnSteps(steps[..n], w);
      && Follows(steps[..n], w, run, script)
      && (IsOwn(steps[n], w) ==>
            |own| < 2 * |script| && steps[n] == ScriptStep(w, run, script, |own|) && |OwnSteps(steps, w)| == |own| + 1)
      && (!IsOwn(steps[n], w) ==> OwnSteps(steps, w) == own)
  {
    var n := |steps| - 1;
    var own, all := OwnSteps(steps[..n], w), OwnSteps(steps, w);
    assert forall k :: 0 <= k < |own| ==> own[k] == all[k];
    if IsOwn(steps[n], w) {
      assert all[|own|] == steps[n];
    }
  }

  lemma OtherStep(s: Sys, step: Step, w: WriterId, run: RunId, e: Entry)
    requires WellFormed(s.table.rows) && !IsOwn(step, w)
    ensures LogOf(s, run) <= LogOf(Next(s, step), run)
    ensures Prepared(s, w, run, e) ==> Prepared(Next(s, step), w, run, e)
  {
    StepLog(s, step, run);
    if Prepared(s, w, run, e) {
      PendingStep(s, step, w);
    }
  }

  lemma OwnWrite(s: Sys, w: WriterId, run: RunId, e: Entry)
    requires WellFormed(s.table.rows) && Prepared(s, w, run, e) && Accepted(s, Step.Write(w))
    ensures var n := |LogOf(s, run)|;
      LogOf(Next(s, Step.Write(w)), run) == LogOf(s, run) + [Event(ForRun(run, e.verb), run, n + 1, e.body)]
  {
    StepLog(s, Step.Write(w), run);
  }

  /** Whatever other steps fall in between, the entries written so far stand in the run's
      log in the order of the script, behind what was there at first. */
  lemma {:induction false} ScriptStaysInOrder(s: Sys, steps: seq<Step>, w: WriterId, run: RunId, script: seq<Entry>)
      returns (pos: seq<nat>)
    requires WellFormed(s.table.rows) && forall i :: 0 <= i < |script| ==> !script[i].body.Resumed?
    requires Follows(steps, w, run, script) && NoRefusal(s, steps, w)
    ensures var t, k := Exec(s, steps), |OwnSteps(steps, w)|;
      && |pos| == k / 2
      && |LogOf(s, run)| <= |LogOf(t, run)|
      && Placed(LogOf(t, run), |LogOf(s, run)|, run, script, pos)
      && (k % 2 == 1 ==> Prepared(t, w, run, script[k / 2]))
  {
    if steps == [] {
      pos := [];
    } else {
      var n := |steps| - 1;
      var t, step := Exec(s, steps[..n]), steps[n];
      var k := |OwnSteps(steps[..n], w)|;
      FollowsPrefix(steps, w, run, script);
      assert NoRefusal(s, steps[..n], w) by {
        assert forall i :: 0 <= i < n ==> steps[..n][i] == steps[i] && steps[..n][..i] == steps[..i];
      }
      pos := ScriptStaysInOrder(s, steps[..n], w, run, script);
      ExecWellFormed(s, steps[..n]);
      var from, log := |LogOf(s, run)|, LogOf(t, run);
      if !IsOwn(step, w) {
        if k % 2 == 1 {
          OtherStep(t, step, w, run, script[k / 2]);
        } else {
          StepLog(t, step, run);
        }
        PlacedGrows(log, LogOf(Next(t, step), run), from, run, script, pos);
      } else if k % 2 == 0 {
        assert step == Step.Read(w, run, IntentOf(run, script[k / 2]));
      } else {
        assert step == Step.Write(w);
        OwnWrite(t, w, run, script[k / 2]);
        var e := script[k / 2];
        PlacedSnoc(log, Event(ForRun(run, e.verb), run, |log| + 1, e.body), from, run, script, pos);
        pos := pos + [|log|];
      }
    }
  }

  /** Orchestration among other writers: if none of its appends is refused, all twelve
      entries of the trace stand in the run's log in order. Until the run's state is
      updated other events can still land behind run.completed; from then on none can. */
  lemma TraceAmongOthers(s: Sys, steps: seq<Step>, w: WriterId, run: RunId) returns (pos: seq<nat>)
    requires WellFormed(s.table.rows)
    requires Follows(steps, w, run, Orchestration.TRACE) && |OwnSteps(steps, w)| == 2 * |Orchestration.TRACE|
    requires NoRefusal(s, steps, w)
    ensures var t := Exec(s, steps);
      && |pos| == |Orchestration.TRACE|
      && Placed(LogOf(t, run), |LogOf(s, run)|, run, Orchestration.TRACE, pos)
      && (!TerminalRun(t.table, run) ==> !Frozen(t, run))
      && (run in t.table.runs ==> Frozen(Next(t, Step.UpdateState(run, Completed)), run))
  {
    pos := ScriptStaysInOrder(s, steps, w, run, Orchestration.TRACE);
    ExecWellFormed(s, steps);
    var t := Exec(s, steps);
    FrozenExactlyWhenTerminal(t, run);
    if run in t.table.runs {
      FrozenExactlyWhenTerminal(Next(t, Step.UpdateState(run, Completed)), run);
    }
  }
}
