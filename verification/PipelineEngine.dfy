/** `PipelineExecutionEngine.execute`: the walk under a step limit. */
module PipelineEngine {
  import opened Prelude
  import opened Pipeline

  datatype Status = Completed | Aborted

  /** One run.progress event of the execution. */
  datatype StepEvent = StepEvent(num: nat, node: NodeId, outcome: Outcome, status: Status)

  datatype Execution = Execution(status: Status, visited: seq<NodeId>, events: seq<StepEvent>)

  datatype ExecuteError = BadMaxSteps | ExceededMaxSteps | Lookup(error: LookupError)

  function StepLimit(p: Pipeline, maxSteps: Option<int>): int {
    if maxSteps.Some? then maxSteps.value
    else if |p.nodes| * 2 > 1 then |p.nodes| * 2
    else 1
  }

  /** One event for each visited node, in order, numbered from 1; only a node that
      failed into a null route is marked aborted. */
  ghost predicate EventsMatch(p: Pipeline, o: map<NodeId, Outcome>, w: seq<NodeId>, events: seq<StepEvent>) {
    && |events| == |w|
    && forall i :: 0 <= i < |w| ==>
        && w[i] in o
        && events[i] == StepEvent(i + 1, w[i], o[w[i]], if MoveFrom(p, o, w[i]).Abort? then Aborted else Completed)
  }

  /** `r` is the answer of a limited execution whose walk is `w`. */
  ghost predicate Answers(p: Pipeline, o: map<NodeId, Outcome>, limit: int, w: seq<NodeId>,
      r: Result<Execution, ExecuteError>)
  {
    && IsWalk(p, o, w) && |w| <= limit
    && match MoveFrom(p, o, w[|w| - 1])
       case Goto(_) => |w| == limit && r == Err(ExceededMaxSteps)
       case Fault(e) => r == Err(Lookup(e))
       case Finish => r.Ok? && r.value.status == Completed && r.value.visited == w
         && EventsMatch(p, o, w, r.value.events)
       case Abort => r.Ok? && r.value.status == Aborted && r.value.visited == w && EventsMatch(p, o, w, r.value.events)
  }

  method Execute(p: Pipeline, outcomes: map<NodeId, Outcome>, maxSteps: Option<int>)
      returns (r: Result<Execution, ExecuteError>, ghost walk: seq<NodeId>)
    ensures StepLimit(p, maxSteps) < 1 ==> r == Err(BadMaxSteps)
    ensures StepLimit(p, maxSteps) >= 1 ==> Answers(p, outcomes, StepLimit(p, maxSteps), walk, r)
  {
    var visited: seq<NodeId> := [];
    var events: seq<StepEvent> := [];
    var current: Option<NodeId> := Some(p.startNode);
    var status := Completed;
    var limit := StepLimit(p, maxSteps);
    walk := [];
    if limit < 1 {
      return Err(BadMaxSteps), walk;
    }
    while current.Some?
      invariant |visited| <= limit
      invariant current.Some? ==> IsWalk(p, outcomes, visited + [current.value]) && status == Completed
      invariant current.None? ==> Answers(p, outcomes, limit, visited, Ok(Execution(status, visited, events)))
      invariant EventsMatch(p, outcomes, visited, events)
      decreases limit - |visited|, current.Some?
    {
      walk := visited + [current.value];
      if |visited| >= limit {
        assert visited != [];
        walk := visited;
        assert forall i :: 0 <= i < |visited| ==> (visited + [current.value])[i] == visited[i];
        assert MoveFrom(p, outcomes, visited[|visited| - 1]) == Goto((visited + [current.value])[|visited|]);
        return Err(ExceededMaxSteps), walk;
      }
      FindNodeMeaning(p.nodes, current.value);
      var node := FindNode(p.nodes, current.value);
      if node.None? {
        return Err(Lookup(UnknownNode)), walk;
      }
      if node.value.id !in outcomes {
        return Err(Lookup(MissingOutcome)), walk;
      }
      var outcome := outcomes[node.value.id];
      var route := FindRoute(p.routes, node.value.id, outcome);
      if route.None? {
        return Err(Lookup(NoRoute)), walk;
      }
      var nextId := route.value.toNode;
      var nodeStatus := Completed;
      if outcome.Failure? && nextId.None? {
        nodeStatus := Aborted;
        status := Aborted;
      }
      visited := visited + [node.value.id];
      events := events + [StepEvent(|events| + 1, node.value.id, outcome, nodeStatus)];
      assert visited == walk;
      if status.Aborted? {
        break;
      }
      current := nextId;
      if current.Some? {
        assert forall i :: 0 <= i < |visited| ==> (visited + [current.value])[i] == visited[i];
      }
    }
    walk := visited;
    return Ok(Execution(status, visited, events)), walk;
  }

  /** The limit, written out. */
  lemma StepLimitWritten(p: Pipeline, maxSteps: Option<int>)
    ensures maxSteps.Some? ==> StepLimit(p, maxSteps) == maxSteps.value
    ensures maxSteps.None? && p.nodes != [] ==> StepLimit(p, maxSteps) == 2 * |p.nodes|
    ensures maxSteps.None? && p.nodes == [] ==> StepLimit(p, maxSteps) == 1
  {
  }

  /** The pipeline declares that this node and this outcome lead to `next`. */
  ghost predicate Declares(p: Pipeline, id: NodeId, outcome: Outcome, next: Option<NodeId>) {
    exists i :: 0 <= i < |p.routes| && p.routes[i] == Route(id, outcome, next)
  }

  /** A node's move in terms of the declared routes. */
  lemma MoveWritten(p: Pipeline, o: map<NodeId, Outcome>, id: NodeId)
    requires Constructed(p)
    ensures var m, known := MoveFrom(p, o, id), exists k :: 0 <= k < |p.nodes| && p.nodes[k].id == id;
      && (m == Fault(UnknownNode) <==> !known)
      && (m == Fault(MissingOutcome) <==> known && id !in o)
      && (m == Fault(NoRoute) <==> known && id in o && forall next :: !Declares(p, id, o[id], next))
      && (forall next :: m == Goto(next) <==> known && id in o && Declares(p, id, o[id], Some(next)))
      && (m == Abort <==> known && id in o && o[id] == Failure && Declares(p, id, Failure, None))
      && (m == Finish <==> known && id in o && o[id] == Success && Declares(p, id, Success, None))
  {
    FindNodeMeaning(p.nodes, id);
    KnownNode(p.nodes, id);
    if id in o {
      RouteOf(p, id, o[id]);
      FindRouteMeaning(p.routes, id, o[id]);
      var r := FindRoute(p.routes, id, o[id]);
      if r.Some? {
        assert r == Some(Route(id, o[id], r.value.toNode));
        assert Declares(p, id, o[id], r.value.toNode);
      }
    }
  }

  lemma KnownNode(nodes: seq<Node>, id: NodeId)
    ensures id in NodeIds(nodes) <==> exists k :: 0 <= k < |nodes| && nodes[k].id == id
  {
    if id in NodeIds(nodes) {
      var k :| 0 <= k < |nodes| && NodeIds(nodes)[k] == id;
      assert nodes[k].id == id;
    }
    if k :| 0 <= k < |nodes| && nodes[k].id == id {
      assert NodeIds(nodes)[k] == id;
    }
  }

  /** A node and an outcome have at most one declared route, and the lookup finds it. */
  lemma RouteOf(p: Pipeline, id: NodeId, outcome: Outcome)
    requires Constructed(p)
    ensures forall next ::
      Declares(p, id, outcome, next) <==> FindRoute(p.routes, id, outcome) == Some(Route(id, outcome, next))
  {
    FindRouteMeaning(p.routes, id, outcome);
    var r := FindRoute(p.routes, id, outcome);
    if r.Some? {
      var i :| 0 <= i < |p.routes| && p.routes[i] == r.value;
      forall next | Declares(p, id, outcome, next)
        ensures r == Some(Route(id, outcome, next))
      {
        var j :| 0 <= j < |p.routes| && p.routes[j] == Route(id, outcome, next);
        assert SameKey(p.routes[i], p.routes[j]) && SameKey(p.routes[j], p.routes[i]);
        assert i == j;
      }
    }
  }

  /** What an execution that returns has done: each node visited has an outcome, the next
      node is the one declared for it, nothing is declared after the last, and the result
      is aborted exactly if the last node failed, as its event alone says. */
  lemma ExecutionWritten(p: Pipeline, o: map<NodeId, Outcome>, limit: int, w: seq<NodeId>, x: Execution)
    requires Constructed(p) && Answers(p, o, limit, w, Ok(x))
    ensures w != [] && w[0] == p.startNode && x.visited == w && |x.events| == |w|
    ensures forall i :: 0 <= i < |w| ==> w[i] in o
    ensures forall i :: 0 <= i < |w| - 1 ==> Declares(p, w[i], o[w[i]], Some(w[i + 1]))
    ensures Declares(p, w[|w| - 1], o[w[|w| - 1]], None)
    ensures x.status == Aborted <==> o[w[|w| - 1]] == Failure
    ensures forall i :: 0 <= i < |w| ==>
      && x.events[i].num == i + 1 && x.events[i].node == w[i] && x.events[i].outcome == o[w[i]]
      && (x.events[i].status == Aborted <==> i == |w| - 1 && o[w[i]] == Failure)
  {
    var last := |w| - 1;
    MoveWritten(p, o, w[last]);
    forall i | 0 <= i < last
      ensures w[i] in o && Declares(p, w[i], o[w[i]], Some(w[i + 1]))
      ensures x.events[i].status != Aborted
    {
      WalkMove(p, o, w, i);
      MoveWritten(p, o, w[i]);
    }
  }

  /** Which error an execution raises, at the last node of its walk. */
  lemma ErrorsWritten(p: Pipeline, o: map<NodeId, Outcome>, limit: int, w: seq<NodeId>,
      r: Result<Execution, ExecuteError>)
    requires Constructed(p) && Answers(p, o, limit, w, r)
    ensures w != []
    ensures var id := w[|w| - 1];
      var known := exists k :: 0 <= k < |p.nodes| && p.nodes[k].id == id;
      && (r == Err(Lookup(UnknownNode)) <==> !known)
      && (r == Err(Lookup(MissingOutcome)) <==> known && id !in o)
      && (r == Err(Lookup(NoRoute)) <==> known && id in o && forall next :: !Declares(p, id, o[id], next))
      && (r == Err(ExceededMaxSteps) <==>
            |w| == limit && known && id in o && exists next :: Declares(p, id, o[id], Some(next)))
  {
    MoveWritten(p, o, w[|w| - 1]);
  }

  /** The limit and the outcome map determine the walk and the answer. */
  lemma AnswerIsUnique(p: Pipeline, o: map<NodeId, Outcome>, limit: int,
      w: seq<NodeId>, r: Result<Execution, ExecuteError>, v: seq<NodeId>, s: Result<Execution, ExecuteError>)
    requires Answers(p, o, limit, w, r) && Answers(p, o, limit, v, s)
    ensures w == v && r == s
  {
    forall i | 0 <= i < |w| && i < |v|
      ensures w[i] == v[i]
    {
      WalksAgree(p, o, w, v, i);
    }
    if |w| < |v| {
      WalkMove(p, o, v, |w| - 1);
      assert false;
    } else if |v| < |w| {
      WalkMove(p, o, w, |v| - 1);
      assert false;
    }
    assert w == v;
    if r.Ok? {
      assert r.value.events == s.value.events;
    }
  }

  /** The walk comes back to a node before any lookup fails. */
  ghost predicate Revisits(p: Pipeline, o: map<NodeId, Outcome>) {
    exists v :: IsWalk(p, o, v) && !NoDup(v)
  }

  /** With any limit from the node count up, and so with the default of twice that
      count, execution exceeds the limit exactly when the walk revisits a node. */
  lemma ExceedsExactlyOnRevisit(p: Pipeline, o: map<NodeId, Outcome>, limit: int, w: seq<NodeId>,
      r: Result<Execution, ExecuteError>)
    requires Constructed(p) && limit >= |p.nodes| && Answers(p, o, limit, w, r)
    ensures r == Err(ExceededMaxSteps) <==> Revisits(p, o)
  {
    var last := MoveFrom(p, o, w[|w| - 1]);
    if last.Goto? {
      var v := w + [last.next];
      assert forall i :: 0 <= i < |w| ==> v[i] == w[i];
      assert IsWalk(p, o, v);
      if NoDup(v) {
        SimpleWalkIsShort(p, o, v);
      }
    } else if Revisits(p, o) {
      var v :| IsWalk(p, o, v) && !NoDup(v);
      StoppedWalkIsLongest(p, o, w, v);
      StoppedWalkIsSimple(p, o, w);
      assert false;
    }
  }

  /** A pipeline whose walk ends is never rejected by the default limit, and visits
      each node at most once. */
  lemma FinishingPipelinesComplete(p: Pipeline, o: map<NodeId, Outcome>, v: seq<NodeId>,
      w: seq<NodeId>, r: Result<Execution, ExecuteError>)
    requires Constructed(p) && Answers(p, o, StepLimit(p, None), w, r)
    requires Stops(p, o, v) && !MoveFrom(p, o, v[|v| - 1]).Fault?
    ensures r.Ok? && r.value.visited == v && NoDup(v) && |v| <= |p.nodes|
    ensures r.value.status == Aborted <==> MoveFrom(p, o, v[|v| - 1]).Abort?
    ensures forall i :: 0 <= i < |r.value.events| ==>
      (r.value.events[i].status == Aborted <==> i == |v| - 1 && r.value.status == Aborted)
  {
    StoppedWalkIsSimple(p, o, v);
    StoppedWalkIsLongest(p, o, v, w);
    if |w| < |v| {
      WalkMove(p, o, v, |w| - 1);
      assert false;
    }
    assert w == v;
    forall i | 0 <= i < |v|
      ensures r.value.events[i].status == Aborted <==> i == |v| - 1 && r.value.status == Aborted
    {
      if i < |v| - 1 {
        WalkMove(p, o, v, i);
      }
    }
  }

  /** Below the node count a limit can reject a pipeline that would finish. */
  lemma SmallLimitRejects()
    ensures var p := Pipeline("a", [Node("a", ""), Node("b", "")],
      [Route("a", Success, Some("b")), Route("b", Success, None)]);
      var o := map["a" := Success, "b" := Success];
      Constructed(p) && Stops(p, o, ["a", "b"]) && Answers(p, o, 1, ["a"], Err(ExceededMaxSteps))
  {
    var p := Pipeline("a", [Node("a", ""), Node("b", "")], [Route("a", Success, Some("b")), Route("b", Success, None)]);
    var o := map["a" := Success, "b" := Success];
    assert "a"[0] != "b"[0];
    assert NodeIds(p.nodes) == ["a", "b"];
    assert p.nodes[1..] == [Node("b", "")] && p.routes[1..] == [Route("b", Success, None)];
    assert MoveFrom(p, o, "a") == Goto("b");
    assert MoveFrom(p, o, "b") == Finish;
  }
}
