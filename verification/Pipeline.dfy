/** Pipelines: construction checks, lookups, and the walk that the outcome map fixes. */
module Pipeline {
  import opened Prelude

  type NodeId = string

  datatype Outcome = Success | Failure

  datatype Node = Node(id: NodeId, refId: string)

  datatype Route = Route(fromNode: NodeId, outcome: Outcome, toNode: Option<NodeId>)

  datatype Pipeline = Pipeline(startNode: NodeId, nodes: seq<Node>, routes: seq<Route>)

  datatype PipelineError =
    | NoNodes | DuplicateNode | UnknownStart | UnknownFromNode | UnknownToNode | DuplicateRoute

  function NodeIds(nodes: seq<Node>): seq<NodeId> {
    seq(|nodes|, i requires 0 <= i < |nodes| => nodes[i].id)
  }

  ghost predicate KnownEnds(p: Pipeline, r: Route) {
    r.fromNode in NodeIds(p.nodes) && (r.toNode.Some? ==> r.toNode.value in NodeIds(p.nodes))
  }

  ghost predicate SameKey(r: Route, s: Route) {
    r.fromNode == s.fromNode && r.outcome == s.outcome
  }

  /** What construction guarantees. */
  ghost predicate Constructed(p: Pipeline) {
    && p.nodes != []
    && NoDup(NodeIds(p.nodes))
    && p.startNode in NodeIds(p.nodes)
    && (forall i :: 0 <= i < |p.routes| ==> KnownEnds(p, p.routes[i]))
    && (forall i, j :: 0 <= i < j < |p.routes| ==> !SameKey(p.routes[i], p.routes[j]))
  }

  method CollectIds(nodes: seq<Node>) returns (ids: Option<set<NodeId>>)
    ensures ids.Some? <==> NoDup(NodeIds(nodes))
    ensures ids.Some? ==> forall id :: id in ids.value <==> id in NodeIds(nodes)
  {
    var seen: set<NodeId> := {};
    for i := 0 to |nodes|
      invariant forall id :: id in seen <==> id in NodeIds(nodes)[..i]
      invariant NoDup(NodeIds(nodes)[..i])
    {
      assert NodeIds(nodes)[..i + 1] == NodeIds(nodes)[..i] + [nodes[i].id];
      if nodes[i].id in seen {
        ghost var k :| 0 <= k < i && NodeIds(nodes)[..i][k] == nodes[i].id;
        assert NodeIds(nodes)[k] == NodeIds(nodes)[i];
        return None;
      }
      seen := seen + {nodes[i].id};
    }
    assert NodeIds(nodes)[..|nodes|] == NodeIds(nodes);
    ids := Some(seen);
  }

  /** The route checks, one route at a time. */
  method CheckRoutes(p: Pipeline, ids: set<NodeId>) returns (error: Option<PipelineError>)
    requires forall id :: id in ids <==> id in NodeIds(p.nodes)
    ensures error.None? <==>
      && (forall i :: 0 <= i < |p.routes| ==> KnownEnds(p, p.routes[i]))
      && (forall i, j :: 0 <= i < j < |p.routes| ==> !SameKey(p.routes[i], p.routes[j]))
    ensures error.Some? ==> error.value in {UnknownFromNode, UnknownToNode, DuplicateRoute}
    ensures error.Some? && error.value != DuplicateRoute ==>
      exists i :: 0 <= i < |p.routes| && !KnownEnds(p, p.routes[i])
        && (error.value.UnknownFromNode? <==> p.routes[i].fromNode !in NodeIds(p.nodes))
    ensures error == Some(DuplicateRoute) ==>
      exists i, j :: 0 <= i < j < |p.routes| && SameKey(p.routes[i], p.routes[j])
  {
    var routeKeys: set<(NodeId, Outcome)> := {};
    for i := 0 to |p.routes|
      invariant forall j :: 0 <= j < i ==> KnownEnds(p, p.routes[j])
      invariant forall j, k :: 0 <= j < k < i ==> !SameKey(p.routes[j], p.routes[k])
      invariant forall key :: key in routeKeys ==>
        exists j :: 0 <= j < i && (p.routes[j].fromNode, p.routes[j].outcome) == key
      invariant forall j :: 0 <= j < i ==> (p.routes[j].fromNode, p.routes[j].outcome) in routeKeys
    {
      var route := p.routes[i];
      if route.fromNode !in ids {
        return Some(UnknownFromNode);
      }
      if route.toNode.Some? && route.toNode.value !in ids {
        return Some(UnknownToNode);
      }
      var key := (route.fromNode, route.outcome);
      if key in routeKeys {
        ghost var j :| 0 <= j < i && (p.routes[j].fromNode, p.routes[j].outcome) == key;
        assert SameKey(p.routes[j], p.routes[i]);
        return Some(DuplicateRoute);
      }
      routeKeys := routeKeys + {key};
    }
    error := None;
  }

  /** Construction accepts exactly the pipelines that satisfy every check. */
  method Construct(p: Pipeline) returns (r: Result<Pipeline, PipelineError>)
    ensures r.Ok? <==> Constructed(p)
    ensures r.Ok? ==> r.value == p
    ensures r == Err(NoNodes) <==> p.nodes == []
    ensures r == Err(DuplicateNode) <==> p.nodes != [] && !NoDup(NodeIds(p.nodes))
    ensures r == Err(UnknownStart) <==> p.nodes != [] && NoDup(NodeIds(p.nodes)) && p.startNode !in NodeIds(p.nodes)
    ensures r.Err? && r.error in {UnknownFromNode, UnknownToNode} ==>
      exists i :: 0 <= i < |p.routes| && !KnownEnds(p, p.routes[i])
        && (r.error.UnknownFromNode? <==> p.routes[i].fromNode !in NodeIds(p.nodes))
    ensures r == Err(DuplicateRoute) ==>
      exists i, j :: 0 <= i < j < |p.routes| && SameKey(p.routes[i], p.routes[j])
  {
    if p.nodes == [] {
      return Err(NoNodes);
    }
    var ids := CollectIds(p.nodes);
    if ids.None? {
      return Err(DuplicateNode);
    }
    if p.startNode !in ids.value {
      return Err(UnknownStart);
    }
    var error := CheckRoutes(p, ids.value);
    r := if error.None? then Ok(p) else Err(error.value);
  }

  function FindNode(nodes: seq<Node>, id: NodeId): Option<Node> {
    if nodes == [] then None else if nodes[0].id == id then Some(nodes[0]) else FindNode(nodes[1..], id)
  }

  function FindRoute(routes: seq<Route>, from: NodeId, outcome: Outcome): Option<Route> {
    if routes == [] then None
    else if routes[0].fromNode == from && routes[0].outcome == outcome then Some(routes[0])
    else FindRoute(routes[1..], from, outcome)
  }

  lemma {:induction false} FindNodeMeaning(nodes: seq<Node>, id: NodeId)
    ensures FindNode(nodes, id).Some? <==> id in NodeIds(nodes)
    ensures FindNode(nodes, id).Some? ==> FindNode(nodes, id).value.id == id
  {
    if nodes == [] {
    } else {
      FindNodeMeaning(nodes[1..], id);
      assert NodeIds(nodes) == [nodes[0].id] + NodeIds(nodes[1..]);
    }
  }

  lemma {:induction false} FindRouteMeaning(routes: seq<Route>, from: NodeId, outcome: Outcome)
    ensures var r := FindRoute(routes, from, outcome);
      && (r.Some? ==> r.value in routes && r.value.fromNode == from && r.value.outcome == outcome)
      && (r.None? <==> forall i :: 0 <= i < |routes| ==> routes[i].fromNode != from || routes[i].outcome != outcome)
  {
    if routes == [] {
    } else {
      FindRouteMeaning(routes[1..], from, outcome);
      assert routes == [routes[0]] + routes[1..];
    }
  }

  // ---- the walk ----

  datatype LookupError = UnknownNode | MissingOutcome | NoRoute

  datatype Move = Goto(next: NodeId) | Finish | Abort | Fault(error: LookupError)

  /** Where the pipeline goes from one node. */
  function MoveFrom(p: Pipeline, outcomes: map<NodeId, Outcome>, id: NodeId): Move {
    var node := FindNode(p.nodes, id);
    if node.None? then Fault(UnknownNode)
    else if node.value.id !in outcomes then Fault(MissingOutcome)
    else
      var outcome := outcomes[node.value.id];
      var route := FindRoute(p.routes, node.value.id, outcome);
      if route.None? then Fault(NoRoute)
      else if route.value.toNode.Some? then Goto(route.value.toNode.value)
      else if outcome.Failure? then Abort
      else Finish
  }

  ghost predicate IsWalk(p: Pipeline, o: map<NodeId, Outcome>, w: seq<NodeId>) {
    && |w| >= 1 && w[0] == p.startNode
    && forall i :: 0 <= i < |w| - 1 ==> MoveFrom(p, o, w[i]) == Goto(w[i + 1])
  }

  lemma WalkMove(p: Pipeline, o: map<NodeId, Outcome>, w: seq<NodeId>, i: nat)
    requires IsWalk(p, o, w) && i < |w| - 1
    ensures MoveFrom(p, o, w[i]) == Goto(w[i + 1])
  {
  }

  /** A walk that cannot go on. */
  ghost predicate Stops(p: Pipeline, o: map<NodeId, Outcome>, w: seq<NodeId>) {
    IsWalk(p, o, w) && !MoveFrom(p, o, w[|w| - 1]).Goto?
  }

  /** The outcome map fixes the walk: of two walks one is a prefix of the other. */
  lemma {:induction false} WalksAgree(p: Pipeline, o: map<NodeId, Outcome>, w: seq<NodeId>, v: seq<NodeId>, i: nat)
    requires IsWalk(p, o, w) && IsWalk(p, o, v) && i < |w| && i < |v|
    ensures w[i] == v[i]
  {
    if i > 0 {
      WalksAgree(p, o, w, v, i - 1);
    }
  }

  lemma StoppedWalkIsLongest(p: Pipeline, o: map<NodeId, Outcome>, w: seq<NodeId>, v: seq<NodeId>)
    requires Stops(p, o, w) && IsWalk(p, o, v)
    ensures |v| <= |w| && v == w[..|v|]
  {
    if |v| > |w| {
      WalksAgree(p, o, w, v, |w| - 1);
      WalkMove(p, o, v, |w| - 1);
      assert false;
    }
    forall i | 0 <= i < |v| && i < |w|
      ensures v[i] == w[i]
    {
      WalksAgree(p, o, w, v, i);
    }
  }

  lemma WalkStaysInside(p: Pipeline, o: map<NodeId, Outcome>, w: seq<NodeId>, i: nat)
    requires Constructed(p) && IsWalk(p, o, w) && i < |w|
    ensures w[i] in NodeIds(p.nodes)
  {
    if i > 0 {
      assert MoveFrom(p, o, w[i - 1]) == Goto(w[i]);
      FindNodeMeaning(p.nodes, w[i - 1]);
      FindRouteMeaning(p.routes, w[i - 1], o[w[i - 1]]);
    }
  }

  /** Once a walk has come back to a node it can be continued to any length. */
  lemma {:induction false} RevisitGoesOn(p: Pipeline, o: map<NodeId, Outcome>, v: seq<NodeId>, i: nat, j: nat, n: nat)
      returns (u: seq<NodeId>, k: nat)
    requires IsWalk(p, o, v) && i < j < |v| && v[i] == v[j]
    ensures IsWalk(p, o, u) && |u| == n + 1 && k < j && u[n] == v[k]
  {
    if n == 0 {
      u, k := [p.startNode], 0;
    } else {
      u, k := RevisitGoesOn(p, o, v, i, j, n - 1);
      u := u + [v[k + 1]];
      k := if k + 1 == j then i else k + 1;
    }
  }

  /** A walk that stops never repeats a node, so it has at most as many steps as there are nodes. */
  lemma StoppedWalkIsSimple(p: Pipeline, o: map<NodeId, Outcome>, w: seq<NodeId>)
    requires Constructed(p) && Stops(p, o, w)
    ensures NoDup(w) && |w| <= |p.nodes|
  {
    if !NoDup(w) {
      var i, j :| 0 <= i < j < |w| && w[i] == w[j];
      var u, k := RevisitGoesOn(p, o, w, i, j, |w|);
      StoppedWalkIsLongest(p, o, w, u);
    }
    SimpleWalkIsShort(p, o, w);
  }

  lemma SimpleWalkIsShort(p: Pipeline, o: map<NodeId, Outcome>, w: seq<NodeId>)
    requires Constructed(p) && IsWalk(p, o, w) && NoDup(w)
    ensures |w| <= |p.nodes|
  {
    var ids := set i | 0 <= i < |p.nodes| :: p.nodes[i].id;
    forall i | 0 <= i < |w|
      ensures w[i] in ids
    {
      WalkStaysInside(p, o, w, i);
      var k :| 0 <= k < |p.nodes| && NodeIds(p.nodes)[k] == w[i];
      assert p.nodes[k].id == w[i];
    }
    Pigeonhole(w, ids);
    IdSetSize(p.nodes);
  }

  lemma {:induction false} IdSetSize(nodes: seq<Node>)
    ensures |set i | 0 <= i < |nodes| :: nodes[i].id| <= |nodes|
  {
    if nodes == [] {
    } else {
      var n := |nodes| - 1;
      IdSetSize(nodes[..n]);
      var before, all := set i | 0 <= i < |nodes[..n]| :: nodes[..n][i].id, set i | 0 <= i < |nodes| :: nodes[i].id;
      forall x | x in all
        ensures x in before + {nodes[n].id}
      {
        var i :| 0 <= i < |nodes| && nodes[i].id == x;
        assert i < n ==> nodes[..n][i].id == x;
      }
      assert all <= before + {nodes[n].id};
      SubsetSize(all, before + {nodes[n].id});
    }
  }

  lemma {:induction false} SubsetSize<T>(a: set<T>, b: set<T>)
    requires a <= b
    ensures |a| <= |b|
  {
    if a == {} {
    } else {
      var x :| x in a;
      SubsetSize(a - {x}, b - {x});
    }
  }
}
