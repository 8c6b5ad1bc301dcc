/** The till-done coding loop and the event trace it emits. */
module TillDone {
  import opened RunEvents

  datatype IterationResult = IterationResult(planArtifact: string, checkPassed: bool, planRevised: bool)

  /** `IterationResult.done`. */
  predicate Done(r: IterationResult) {
    r.checkPassed && !r.planRevised
  }

  datatype LoopOutcome = LoopCompleted | LoopEscalatedOutcome

  /** An event body with the artifact it refers to, if any. */
  datatype Item = Item(body: Body, artifact: string)

  datatype LoopEvent = LoopEvent(num: nat, item: Item)

  function Mark(phase: Phase, milestone: Milestone): Item {
    Item(Progress(phase, milestone), "")
  }

  function NumberedFrom(start: nat, items: seq<Item>): seq<LoopEvent> {
    seq(|items|, i requires 0 <= i < |items| => LoopEvent(start + i + 1, items[i]))
  }

  lemma NumberedSnoc(start: nat, items: seq<Item>, item: Item)
    ensures NumberedFrom(start, items + [item]) == NumberedFrom(start, items) + [LoopEvent(start + |items| + 1, item)]
  {
  }

  /** The in-memory event stream of a loop. */
  class LoopStream {
    var events: seq<LoopEvent>
    /** The events the stream held when the loop began, and the items emitted since. */
    ghost var first: seq<LoopEvent>
    ghost var items: seq<Item>

    constructor ()
      ensures Valid() && events == []
    {
      events, first, items := [], [], [];
    }

    /** The items are numbered on from the events that were there before. */
    ghost predicate Valid()
      reads this
    {
      events == first + NumberedFrom(|first|, items)
    }

    ghost method Begin()
      modifies this`first, this`items
      ensures Valid() && first == events && items == []
    {
      first, items := events, [];
      assert first + NumberedFrom(|first|, []) == first;
    }

    /** Both emitters number an event with the stream length plus one. */
    method Emit(item: Item)
      requires item.body.Progress? ==> Cataloged(item.body.phase, item.body.milestone)
      requires Valid()
      modifies this`events, this`items
      ensures Valid() && items == old(items) + [item]
      ensures events == old(events) + [LoopEvent(|old(events)| + 1, item)]
    {
      NumberedSnoc(|first|, items, item);
      events := events + [LoopEvent(|events| + 1, item)];
      items := items + [item];
    }
  }

  function PlanItems(r: IterationResult): seq<Item> {
    [Mark(Plan, Drafted), Mark(Plan, ApprovalRequested), Mark(Plan, Ready),
      Item(Progress(Code, ChangesApplied), r.planArtifact)]
  }

  function Opening(r: IterationResult): seq<Item> {
    [Mark(Code, IterationStarted)] + PlanItems(r)
  }

  /** What follows the opening: a revision, a passed check with the closing of the loop, or a failed check. */
  function Verdict(i: nat, r: IterationResult): seq<Item> {
    if r.planRevised then
      [Mark(Plan, RevisionCataloged), Mark(Code, PlanRevised),
       Item(ArtifactCreated("plan-revision", i), r.planArtifact), Mark(Plan, Ready)]
    else if r.checkPassed then [Mark(Code, CheckPassed), Mark(Code, IterationComplete), Mark(Code, LoopTerminal)]
    else [Mark(Code, IterationComplete)]
  }

  function IterationTrace(i: nat, r: IterationResult): seq<Item> {
    Opening(r) + Verdict(i, r)
  }

  /** The iterations 1..n, none of them the last. */
  function MiddleTraces(f: nat -> IterationResult, n: nat): seq<Item> {
    if n == 0 then [] else MiddleTraces(f, n - 1) + IterationTrace(n, f(n))
  }

  /** The number of iterations the loop makes from iteration i on: up to the first
      done one, but never more than the maximum. */
  function LastIteration(f: nat -> IterationResult, i: nat, max: int): (n: nat)
    requires 1 <= i <= max
    ensures i <= n <= max
    ensures forall k :: i <= k < n ==> !Done(f(k))
    ensures n < max ==> Done(f(n))
    decreases max - i
  {
    if i == max || Done(f(i)) then i else LastIteration(f, i + 1, max)
  }

  function Calls(f: nat -> IterationResult, max: int): nat {
    if max < 1 then 0 else LastIteration(f, 1, max)
  }

  /** The last iteration, which the maximum cuts short. */
  function LastTrace(f: nat -> IterationResult, n: nat, max: int): seq<Item> {
    if n == max then [Mark(Code, IterationStarted), Mark(Code, LoopEscalated)] else IterationTrace(n, f(n))
  }

  function FullTrace(f: nat -> IterationResult, max: int): seq<Item> {
    if max < 1 then [Mark(Code, LoopEscalated)]
    else
      var n := Calls(f, max);
      MiddleTraces(f, n - 1) + LastTrace(f, n, max)
  }

  lemma JoinItems(a: seq<Item>, b: seq<Item>, c: seq<Item>)
    ensures a + b + c == a + (b + c)
  {
  }

  method EmitPlan(stream: LoopStream, r: IterationResult)
    requires stream.Valid()
    modifies stream`events, stream`items
    ensures stream.Valid() && stream.items == old(stream.items) + PlanItems(r)
  {
    stream.Emit(Mark(Plan, Drafted));
    stream.Emit(Mark(Plan, ApprovalRequested));
    stream.Emit(Mark(Plan, Ready));
    stream.Emit(Item(Progress(Code, ChangesApplied), r.planArtifact));
    assert stream.items == old(stream.items) + PlanItems(r);
  }

  method EmitVerdict(stream: LoopStream, iteration: nat, r: IterationResult)
    requires stream.Valid()
    modifies stream`events, stream`items
    ensures stream.Valid() && stream.items == old(stream.items) + Verdict(iteration, r)
  {
    if r.planRevised {
      stream.Emit(Mark(Plan, RevisionCataloged));
      stream.Emit(Mark(Code, PlanRevised));
      stream.Emit(Item(ArtifactCreated("plan-revision", iteration), r.planArtifact));
      stream.Emit(Mark(Plan, Ready));
    } else if r.checkPassed {
      stream.Emit(Mark(Code, CheckPassed));
    } else {
      stream.Emit(Mark(Code, IterationComplete));
    }
    if r.checkPassed && !r.planRevised {
      stream.Emit(Mark(Code, IterationComplete));
      stream.Emit(Mark(Code, LoopTerminal));
    }
    assert stream.items == old(stream.items) + Verdict(iteration, r);
  }

  /** What follows the start of an iteration that is not the last allowed one. */
  method EmitIteration(stream: LoopStream, iteration: nat, r: IterationResult, ghost before: seq<Item>)
    requires stream.Valid() && stream.items == before + [Mark(Code, IterationStarted)]
    modifies stream`events, stream`items
    ensures stream.Valid() && stream.items == before + IterationTrace(iteration, r)
  {
    JoinItems(before, [Mark(Code, IterationStarted)], PlanItems(r));
    JoinItems(before, Opening(r), Verdict(iteration, r));
    EmitPlan(stream, r);
    EmitVerdict(stream, iteration, r);
  }

  /** `called` lists the arguments of the step function in order. */
  method RunTillDone(f: nat -> IterationResult, maxIterations: int, stream: LoopStream)
      returns (outcome: LoopOutcome, called: seq<nat>)
    modifies stream
    ensures stream.events == old(stream.events) + NumberedFrom(|old(stream.events)|, FullTrace(f, maxIterations))
    ensures |called| == Calls(f, maxIterations) && forall i :: 0 <= i < |called| ==> called[i] == i + 1
    ensures outcome == LoopCompleted <==> exists i :: 1 <= i < maxIterations && Done(f(i))
  {
    var iteration := 0;
    called := [];
    stream.Begin();
    while iteration < maxIterations
      invariant 0 <= iteration && (iteration == 0 || iteration < maxIterations)
      invariant forall i :: 1 <= i <= iteration ==> !Done(f(i))
      invariant |called| == iteration && forall i :: 0 <= i < |called| ==> called[i] == i + 1
      invariant stream.Valid() && stream.first == old(stream.events)
      invariant stream.items == MiddleTraces(f, iteration)
      decreases maxIterations - iteration
    {
      iteration := iteration + 1;
      var r := f(iteration);
      called := called + [iteration];
      FirstDoneIs(f, iteration, maxIterations);
      ghost var before := stream.items;
      stream.Emit(Mark(Code, IterationStarted));
      if iteration >= maxIterations {
        stream.Emit(Mark(Code, LoopEscalated));
        assert stream.items == before + [Mark(Code, IterationStarted), Mark(Code, LoopEscalated)];
        return LoopEscalatedOutcome, called;
      }
      EmitIteration(stream, iteration, r, before);
      if r.checkPassed && !r.planRevised {
        return LoopCompleted, called;
      }
    }
    stream.Emit(Mark(Code, LoopEscalated));
    outcome := LoopEscalatedOutcome;
  }

  /** When no earlier iteration is done, iteration i is the last one if it is done or reaches the maximum. */
  lemma {:induction false} FirstDoneFrom(f: nat -> IterationResult, k: nat, i: nat, max: int)
    requires 1 <= k <= i <= max && forall j :: k <= j < i ==> !Done(f(j))
    ensures i == max || Done(f(i)) ==> LastIteration(f, k, max) == i
    decreases i - k
  {
    if k < i {
      FirstDoneFrom(f, k + 1, i, max);
    }
  }

  lemma FirstDoneIs(f: nat -> IterationResult, i: nat, max: int)
    requires 1 <= i <= max && forall j :: 1 <= j < i ==> !Done(f(j))
    ensures i == max || Done(f(i)) ==> Calls(f, max) == i
  {
    FirstDoneFrom(f, 1, i, max);
  }

  // ---- the trace, written out ----

  /** An iteration that is not cut short, for each kind of result. */
  lemma IterationWritten(i: nat, r: IterationResult)
    ensures var opening := [
        Item(Progress(Code, IterationStarted), ""),
        Item(Progress(Plan, Drafted), ""), Item(Progress(Plan, ApprovalRequested), ""), Item(Progress(Plan, Ready), ""),
        Item(Progress(Code, ChangesApplied), r.planArtifact)];
      var trace := IterationTrace(i, r);
      && (r.planRevised ==>
            trace == opening + [
              Item(Progress(Plan, RevisionCataloged), ""), Item(Progress(Code, PlanRevised), ""),
              Item(ArtifactCreated("plan-revision", i), r.planArtifact), Item(Progress(Plan, Ready), "")])
      && (!r.planRevised && r.checkPassed ==>
            trace == opening + [
              Item(Progress(Code, CheckPassed), ""), Item(Progress(Code, IterationComplete), ""),
              Item(Progress(Code, LoopTerminal), "")])
      && (!r.planRevised && !r.checkPassed ==> trace == opening + [Item(Progress(Code, IterationComplete), "")])
  {
  }

  /** The calls stop at the first iteration whose check passed with the plan unrevised, or
      at the maximum. */
  lemma CallsWritten(f: nat -> IterationResult, max: int, n: nat)
    ensures max < 1 ==> Calls(f, max) == 0
    ensures 1 <= n <= max ==>
      (Calls(f, max) == n <==>
        && (forall k :: 1 <= k < n ==> !(f(k).checkPassed && !f(k).planRevised))
        && (n == max || (f(n).checkPassed && !f(n).planRevised)))
  {
    if max >= 1 {
      var m := Calls(f, max);
      assert forall k :: 1 <= k < m ==> !Done(f(k));
      assert m < max ==> Done(f(m));
    }
  }

  /** An escalated loop ends in an iteration that has only started, or has made none. */
  lemma EscalationWritten(f: nat -> IterationResult, max: int)
    ensures max < 1 ==> FullTrace(f, max) == [Item(Progress(Code, LoopEscalated), "")]
    ensures max >= 1 && (forall k :: 1 <= k < max ==> !(f(k).checkPassed && !f(k).planRevised)) ==>
      FullTrace(f, max) ==
      MiddleTraces(f, max - 1) + [Item(Progress(Code, IterationStarted), ""), Item(Progress(Code, LoopEscalated), "")]
    ensures max >= 1 && !(forall k :: 1 <= k < max ==> !(f(k).checkPassed && !f(k).planRevised)) ==>
      FullTrace(f, max) == MiddleTraces(f, Calls(f, max))
  {
    if max >= 1 {
      var m := Calls(f, max);
      assert forall k :: 1 <= k < m ==> !Done(f(k));
      assert m < max ==> Done(f(m));
    }
  }

  // ---- what the trace says ----

  predicate Closes(item: Item) {
    item == Mark(Code, LoopTerminal) || item == Mark(Code, LoopEscalated)
  }

  lemma {:induction false} MiddleNeverCloses(f: nat -> IterationResult, n: nat, k: nat)
    requires k < |MiddleTraces(f, n)| && forall i :: 1 <= i <= n ==> !Done(f(i))
    ensures !Closes(MiddleTraces(f, n)[k])
  {
    var before := MiddleTraces(f, n - 1);
    if k < |before| {
      MiddleNeverCloses(f, n - 1, k);
    } else {
      assert MiddleTraces(f, n)[k] == IterationTrace(n, f(n))[k - |before|];
    }
  }

  /** Every trace ends in exactly one closing milestone, `terminal` if and only if some
      iteration strictly before the last allowed one is done, and nothing follows it. */
  lemma TraceClosesOnce(f: nat -> IterationResult, max: int)
    ensures var t := FullTrace(f, max);
      && t != [] && Closes(t[|t| - 1])
      && (forall k :: 0 <= k < |t| - 1 ==> !Closes(t[k]))
      && (t[|t| - 1] == Mark(Code, LoopTerminal) <==> exists i :: 1 <= i < max && Done(f(i)))
  {
    var t := FullTrace(f, max);
    if max >= 1 {
      var n := Calls(f, max);
      var before := MiddleTraces(f, n - 1);
      forall k | 0 <= k < |before|
        ensures !Closes(t[k])
      {
        MiddleNeverCloses(f, n - 1, k);
        assert t[k] == before[k];
      }
    }
  }

  function CountStarts(items: seq<Item>): nat {
    if items == [] then 0
    else CountStarts(items[..|items| - 1]) + if items[|items| - 1] == Mark(Code, IterationStarted) then 1 else 0
  }

  lemma {:induction false} CountStartsConcat(a: seq<Item>, b: seq<Item>)
    ensures CountStarts(a + b) == CountStarts(a) + CountStarts(b)
  {
    if b == [] {
      assert a + b == a;
    } else {
      CountStartsConcat(a, b[..|b| - 1]);
      assert (a + b)[..|a + b| - 1] == a + b[..|b| - 1];
    }
  }

  lemma {:induction false} CountOpening(r: IterationResult, rest: seq<Item>)
    ensures CountStarts(Opening(r) + rest) == 1 + CountStarts(rest)
  {
    var o := Opening(r);
    CountStartsConcat(o, rest);
    CountStartsConcat([o[0]], o[1..]);
    assert o == [o[0]] + o[1..];
    assert CountStarts([o[0]]) == 1;
    NoStarts(o[1..]);
  }

  lemma {:induction false} NoStarts(items: seq<Item>)
    requires forall k :: 0 <= k < |items| ==> items[k] != Mark(Code, IterationStarted)
    ensures CountStarts(items) == 0
  {
    if items == [] {
    } else {
      NoStarts(items[..|items| - 1]);
    }
  }

  lemma {:induction false} CountIteration(i: nat, r: IterationResult)
    ensures CountStarts(IterationTrace(i, r)) == 1
  {
    CountOpening(r, Verdict(i, r));
    NoStarts(Verdict(i, r));
  }

  lemma {:induction false} CountOneMore(before: seq<Item>, trace: seq<Item>)
    requires CountStarts(trace) == 1
    ensures CountStarts(before + trace) == CountStarts(before) + 1
  {
    CountStartsConcat(before, trace);
  }

  lemma {:induction false} CountMiddle(f: nat -> IterationResult, n: nat)
    ensures CountStarts(MiddleTraces(f, n)) == n
  {
    if n == 0 {
    } else {
      var before, trace := MiddleTraces(f, n - 1), IterationTrace(n, f(n));
      CountMiddle(f, n - 1);
      CountIteration(n, f(n));
      CountOneMore(before, trace);
    }
  }

  lemma {:induction false} CountLast(f: nat -> IterationResult, n: nat, max: int)
    ensures CountStarts(LastTrace(f, n, max)) == 1
  {
    if n == max {
      var last := [Mark(Code, IterationStarted), Mark(Code, LoopEscalated)];
      assert last[..1] == [Mark(Code, IterationStarted)] && last[..1][..0] == [];
    } else {
      CountIteration(n, f(n));
    }
  }

  lemma {:induction false} NoCallsNoStarts(f: nat -> IterationResult, max: int)
    requires max < 1
    ensures CountStarts(FullTrace(f, max)) == 0
  {
    NoStarts([Mark(Code, LoopEscalated)]);
  }

  lemma {:induction false} StartsOf(before: seq<Item>, last: seq<Item>, trace: seq<Item>, n: nat)
    requires trace == before + last && CountStarts(before) + 1 == n && CountStarts(last) == 1
    ensures CountStarts(trace) == n
  {
    CountOneMore(before, last);
  }

  /** The trace starts exactly one iteration for each call of the step function. */
  lemma {:induction false} StartsAreCalls(f: nat -> IterationResult, max: int)
    ensures CountStarts(FullTrace(f, max)) == Calls(f, max)
  {
    if max < 1 {
      NoCallsNoStarts(f, max);
    } else {
      var n := Calls(f, max);
      CountMiddle(f, n - 1);
      CountLast(f, n, max);
      StartsOf(MiddleTraces(f, n - 1), LastTrace(f, n, max), FullTrace(f, max), n);
    }
  }

  /** Work that is done in the last allowed iteration is escalated all the same. */
  lemma DoneTooLate(max: int)
    requires max >= 1
    ensures var f := (i: nat) => IterationResult("plan", i == max, false);
      && Done(f(max)) && Calls(f, max) == max
      && FullTrace(f, max)[|FullTrace(f, max)| - 1] == Mark(Code, LoopEscalated)
  {
    var f := (i: nat) => IterationResult("plan", i == max, false);
    FirstDoneIs(f, max, max);
  }
}
