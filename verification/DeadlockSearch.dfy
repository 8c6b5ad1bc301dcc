/** Cycle detection over handoff routes: a depth-first search with two mutable
    sets, iterating successor sets in an arbitrary order. */
module DeadlockSearch {
  import opened Prelude

  type AgentId = string

  datatype Route = Route(fromAgent: AgentId, output: string, toAgent: AgentId, artifactKind: string, isFallback: bool)

  type Graph = map<AgentId, set<AgentId>>

  function Succ(g: Graph, n: AgentId): set<AgentId> {
    if n in g then g[n] else {}
  }

  ghost predicate Edge(routes: seq<Route>, a: AgentId, b: AgentId) {
    exists i :: 0 <= i < |routes| && routes[i].fromAgent == a && routes[i].toAgent == b
  }

  ghost predicate IsWalk(routes: seq<Route>, p: seq<AgentId>) {
    forall i :: 0 <= i < |p| - 1 ==> Edge(routes, p[i], p[i + 1])
  }

  ghost predicate IsCycle(routes: seq<Route>, p: seq<AgentId>) {
    |p| >= 2 && p[0] == p[|p| - 1] && IsWalk(routes, p)
  }

  ghost predicate HasCycle(routes: seq<Route>) {
    exists p :: IsCycle(routes, p)
  }

  /** Every successor of an agent in the order stands before it. */
  ghost predicate Topological(routes: seq<Route>, order: seq<AgentId>) {
    && NoDup(order)
    && forall i, t :: 0 <= i < |order| && Edge(routes, order[i], t) ==> t in order[..i]
  }

  ghost predicate Covers(routes: seq<Route>, order: seq<AgentId>) {
    forall i :: 0 <= i < |routes| ==> routes[i].fromAgent in order && routes[i].toAgent in order
  }

  lemma {:induction false} WalkDescends(routes: seq<Route>, order: seq<AgentId>, p: seq<AgentId>, k: nat, i: nat)
    requires Topological(routes, order) && IsWalk(routes, p)
    requires k < |order| && 1 <= i < |p| && p[0] == order[k]
    ensures p[i] in order[..k]
  {
    assert Edge(routes, p[i - 1], p[i]);
    if i > 1 {
      WalkDescends(routes, order, p, k, i - 1);
      var j :| 0 <= j < k && order[..k][j] == p[i - 1];
      assert p[i] in order[..j];
      assert order[..j] <= order[..k];
    }
  }

  /** A covering topological order rules out every cycle. */
  lemma TopologicalNoCycle(routes: seq<Route>, order: seq<AgentId>)
    requires Topological(routes, order) && Covers(routes, order)
    ensures !HasCycle(routes)
  {
    if p :| IsCycle(routes, p) {
      assert Edge(routes, p[0], p[1]);
      var k :| 0 <= k < |order| && order[k] == p[0];
      WalkDescends(routes, order, p, k, |p| - 1);
      assert false;
    }
  }

  lemma TopologicalSnoc(routes: seq<Route>, order: seq<AgentId>, node: AgentId)
    requires Topological(routes, order) && node !in order
    requires forall t :: Edge(routes, node, t) ==> t in order
    ensures Topological(routes, order + [node])
  {
    var longer := order + [node];
    forall i, t | 0 <= i < |longer| && Edge(routes, longer[i], t)
      ensures t in longer[..i]
    {
      if i < |order| {
        assert longer[..i] == order[..i];
      } else {
        assert longer[..i] == order;
      }
    }
  }

  function Nodes(g: Graph): set<AgentId> {
    g.Keys + set n, t | n in g && t in g[n] :: t
  }

  ghost predicate GraphOf(routes: seq<Route>, g: Graph) {
    && (forall a, b :: b in Succ(g, a) <==> Edge(routes, a, b))
    && (forall n :: n in g ==> g[n] != {})
  }

  class Search {
    const graph: Graph
    ghost const routes: seq<Route>
    var visiting: set<AgentId>
    var visited: set<AgentId>
    ghost var path: seq<AgentId>
    ghost var order: seq<AgentId>

    /** `visiting` is the current path of the search; `visited` is the finish order so far. */
    ghost predicate Valid()
      reads this
    {
      && GraphOf(routes, graph)
      && visiting == Elems(path) && NoDup(path) && IsWalk(routes, path)
      && visited == Elems(order) && Topological(routes, order)
      && visiting !! visited
      && visiting <= Nodes(graph)
    }

    constructor (graph: Graph, ghost routes: seq<Route>)
      requires GraphOf(routes, graph)
      ensures Valid() && path == [] && this.graph == graph && this.routes == routes
    {
      this.graph := graph;
      this.routes := routes;
      visiting, visited := {}, {};
      path, order := [], [];
    }

    method Visit(node: AgentId) returns (deadlock: bool)
      requires Valid() && node in Nodes(graph)
      requires path != [] ==> Edge(routes, path[|path| - 1], node)
      modifies this
      ensures deadlock ==> HasCycle(routes)
      ensures !deadlock ==> Valid() && path == old(path) && old(visited) <= visited && node in visited
      decreases Nodes(graph) - visiting
    {
      if node in visiting {
        CloseCycle(node);
        return true;
      }
      if node in visited {
        return false;
      }
      visiting := visiting + {node};
      ElemsSnoc(path, node);
      path := path + [node];
      var targets := Succ(graph, node);
      while targets != {}
        invariant Valid() && path == old(path) + [node] && node !in visited
        invariant targets <= Succ(graph, node)
        invariant Succ(graph, node) - targets <= visited
        invariant old(visited) <= visited
        decreases targets
      {
        var target :| target in targets;
        deadlock := Visit(target);
        if deadlock {
          return;
        }
        targets := targets - {target};
      }
      Finish(node);
      deadlock := false;
    }

    lemma {:induction false} CloseCycle(node: AgentId)
      requires Valid() && node in visiting && path != [] && Edge(routes, path[|path| - 1], node)
      ensures HasCycle(routes)
    {
      var i :| 0 <= i < |path| && path[i] == node;
      var cycle := path[i..] + [node];
      forall j | 0 <= j < |cycle| - 1
        ensures Edge(routes, cycle[j], cycle[j + 1])
      {
        assert cycle[j] == path[i + j];
        assert j < |cycle| - 2 ==> cycle[j + 1] == path[i + j + 1];
      }
      assert IsCycle(routes, cycle);
    }

    method Finish(node: AgentId)
      requires Valid() && path != [] && path[|path| - 1] == node
      requires Succ(graph, node) <= visited
      modifies this
      ensures Valid() && path == old(path[..|path| - 1]) && visited == old(visited) + {node}
    {
      ghost var rest := path[..|path| - 1];
      assert path == rest + [node];
      ElemsSnoc(rest, node);
      ElemsSnoc(order, node);
      TopologicalSnoc(routes, order, node);
      visiting := visiting - {node};
      visited := visited + {node};
      path := rest;
      order := order + [node];
    }
  }

  /** `graph.setdefault(from, set()).add(to)` over all routes. */
  method BuildGraph(routes: seq<Route>) returns (graph: Graph)
    ensures GraphOf(routes, graph)
    ensures forall i :: 0 <= i < |routes| ==> routes[i].fromAgent in graph
  {
    graph := map[];
    for i := 0 to |routes|
      invariant GraphOf(routes[..i], graph)
      invariant forall j :: 0 <= j < i ==> routes[j].fromAgent in graph
    {
      var r := routes[i];
      assert routes[..i + 1] == routes[..i] + [r];
      ghost var before := graph;
      forall a, b
        ensures Edge(routes[..i + 1], a, b) <==> Edge(routes[..i], a, b) || (a == r.fromAgent && b == r.toAgent)
      {
        EdgeSnoc(routes[..i], r, a, b);
      }
      graph := graph[r.fromAgent := Succ(graph, r.fromAgent) + {r.toAgent}];
      assert forall a, b :: b in Succ(graph, a) <==> b in Succ(before, a) || (a == r.fromAgent && b == r.toAgent);
    }
    assert routes[..|routes|] == routes;
  }

  lemma EdgeSnoc(routes: seq<Route>, r: Route, a: AgentId, b: AgentId)
    ensures Edge(routes + [r], a, b) <==> Edge(routes, a, b) || (a == r.fromAgent && b == r.toAgent)
  {
    if Edge(routes, a, b) {
      var i :| 0 <= i < |routes| && routes[i].fromAgent == a && routes[i].toAgent == b;
      assert (routes + [r])[i] == routes[i];
    }
    if a == r.fromAgent && b == r.toAgent {
      assert (routes + [r])[|routes|] == r;
    }
  }

  /** Terminates, and raises exactly when the routes contain a directed cycle; when it
      returns normally the finish order is a covering topological order. */
  method RaiseOnDeadlock(routes: seq<Route>) returns (deadlock: bool, ghost order: seq<AgentId>)
    ensures deadlock <==> HasCycle(routes)
    ensures !deadlock ==> Topological(routes, order) && Covers(routes, order)
  {
    var graph := BuildGraph(routes);
    var search := new Search(graph, routes);
    var roots := graph.Keys;
    order := [];
    while roots != {}
      invariant search.Valid() && search.path == []
      invariant search.graph == graph && search.routes == routes
      invariant roots <= graph.Keys && graph.Keys - roots <= search.visited
      decreases roots
    {
      var node :| node in roots;
      deadlock := search.Visit(node);
      if deadlock {
        return;
      }
      roots := roots - {node};
    }
    order := search.order;
    forall i | 0 <= i < |routes|
      ensures routes[i].fromAgent in order && routes[i].toAgent in order
    {
      assert routes[i].fromAgent in Elems(order);
      var k :| 0 <= k < |order| && order[k] == routes[i].fromAgent;
      assert Edge(routes, order[k], routes[i].toAgent);
      assert routes[i].toAgent in order[..k];
    }
    TopologicalNoCycle(routes, order);
    deadlock := false;
  }
}
