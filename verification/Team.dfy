/** Teams: construction checks, handoff routing, and what acyclic routes mean for
    chains of handoffs. */
module Team {
  import opened Prelude
  import opened DeadlockSearch

  datatype SubAgent = SubAgent(id: AgentId, expectedOutputs: seq<string>)

  datatype Team = Team(
    dispatcher: SubAgent, specialists: seq<SubAgent>, routes: seq<Route>, fallbackAgent: Option<AgentId>)

  datatype TeamError =
    | NoSpecialists | DuplicateMember
    | UnknownFromAgent | UnknownToAgent | SelfHandoff | UnexpectedOutput
    | BadFallback | DeadlockCycle | ProviderConfigNotEmpty

  function Members(t: Team): seq<SubAgent> {
    [t.dispatcher] + t.specialists
  }

  function Ids(agents: seq<SubAgent>): seq<AgentId> {
    seq(|agents|, i requires 0 <= i < |agents| => agents[i].id)
  }

  /** The four checks on one route, in the order of the constructor. */
  function RouteError(byId: map<AgentId, SubAgent>, r: Route): Option<TeamError> {
    if r.fromAgent !in byId then Some(UnknownFromAgent)
    else if r.toAgent !in byId then Some(UnknownToAgent)
    else if r.fromAgent == r.toAgent then Some(SelfHandoff)
    else if r.output !in byId[r.fromAgent].expectedOutputs then Some(UnexpectedOutput)
    else None
  }

  /** A route is sound when its endpoints are different members and its output is
      one that its source declares. */
  ghost predicate RouteSound(t: Team, r: Route) {
    && r.toAgent in Ids(Members(t))
    && r.fromAgent != r.toAgent
    && exists i :: 0 <= i < |Members(t)| && Members(t)[i].id == r.fromAgent && r.output in Members(t)[i].expectedOutputs
  }

  /** The fault that `e` names on one route, given that the checks before it passed. */
  ghost predicate RouteFault(t: Team, r: Route, e: TeamError) {
    var ids := Ids(Members(t));
    match e
    case UnknownFromAgent => r.fromAgent !in ids
    case UnknownToAgent => r.fromAgent in ids && r.toAgent !in ids
    case SelfHandoff => r.fromAgent in ids && r.toAgent == r.fromAgent
    case UnexpectedOutput => r.fromAgent in ids && r.toAgent in ids && r.toAgent != r.fromAgent && !RouteSound(t, r)
    case _ => false
  }

  /** `e` is the fault of the first route that is not sound. */
  ghost predicate FirstRouteFault(t: Team, e: TeamError) {
    exists i :: 0 <= i < |t.routes| && RouteFault(t, t.routes[i], e)
      && forall j :: 0 <= j < i ==> RouteSound(t, t.routes[j])
  }

  /** What construction guarantees. */
  ghost predicate Constructed(t: Team) {
    && t.specialists != []
    && NoDup(Ids(Members(t)))
    && (forall i :: 0 <= i < |t.routes| ==> RouteSound(t, t.routes[i]))
    && (t.fallbackAgent.Some? ==> t.fallbackAgent.value in Ids(t.specialists))
    && !HasCycle(t.routes)
  }

  /** `byId` is the dictionary of a member list without duplicate ids. */
  ghost predicate Indexes(byId: map<AgentId, SubAgent>, agents: seq<SubAgent>) {
    && NoDup(Ids(agents))
    && (forall i :: 0 <= i < |agents| ==> agents[i].id in byId && byId[agents[i].id] == agents[i])
    && (forall id :: id in byId ==> id in Ids(agents))
  }

  method IndexMembers(agents: seq<SubAgent>) returns (byId: Option<map<AgentId, SubAgent>>)
    ensures byId.Some? <==> NoDup(Ids(agents))
    ensures byId.Some? ==> Indexes(byId.value, agents)
  {
    var index: map<AgentId, SubAgent> := map[];
    for i := 0 to |agents|
      invariant Indexes(index, agents[..i])
    {
      assert Ids(agents[..i]) == Ids(agents)[..i];
      assert Ids(agents[..i + 1]) == Ids(agents[..i]) + [agents[i].id];
      if agents[i].id in index {
        assert Ids(agents)[i] in Ids(agents)[..i];
        return None;
      }
      index := index[agents[i].id := agents[i]];
      assert forall j :: 0 <= j < i + 1 ==> agents[..i + 1][j] == (if j < i then agents[..i][j] else agents[i]);
    }
    assert agents[..|agents|] == agents;
    byId := Some(index);
  }

  lemma RouteErrorMeaning(t: Team, byId: map<AgentId, SubAgent>, r: Route)
    requires Indexes(byId, Members(t))
    ensures RouteError(byId, r).None? <==> RouteSound(t, r)
    ensures RouteError(byId, r).Some? ==> RouteFault(t, r, RouteError(byId, r).value)
  {
    var ids := Ids(Members(t));
    forall i | 0 <= i < |Members(t)| && Members(t)[i].id == r.fromAgent
      ensures r.fromAgent in byId && byId[r.fromAgent] == Members(t)[i]
    {
    }
    if r.fromAgent in byId {
      var i :| 0 <= i < |ids| && ids[i] == r.fromAgent;
      assert Members(t)[i].id == r.fromAgent;
    }
    if r.toAgent in ids {
      var i :| 0 <= i < |ids| && ids[i] == r.toAgent;
      assert Members(t)[i].id in byId;
    }
  }

  /** Construction accepts exactly the teams that satisfy every check, and returns the team unchanged. */
  method Construct(t: Team, providerConfigEmpty: bool) returns (r: Result<Team, TeamError>)
    ensures r.Ok? <==> Constructed(t) && providerConfigEmpty
    ensures r.Ok? ==> r.value == t
    ensures r == Err(NoSpecialists) <==> t.specialists == []
    ensures r == Err(DuplicateMember) <==> t.specialists != [] && !NoDup(Ids(Members(t)))
    ensures r == Err(ProviderConfigNotEmpty) <==> Constructed(t) && !providerConfigEmpty
    ensures r.Err? && r.error in {UnknownFromAgent, UnknownToAgent, SelfHandoff, UnexpectedOutput} ==>
      FirstRouteFault(t, r.error)
    ensures r == Err(BadFallback) ==> t.fallbackAgent.Some? && t.fallbackAgent.value !in Ids(t.specialists)
    ensures r == Err(DeadlockCycle) ==> HasCycle(t.routes)
  {
    if t.specialists == [] {
      return Err(NoSpecialists);
    }
    var byId := IndexMembers(Members(t));
    if byId.None? {
      return Err(DuplicateMember);
    }
    for i := 0 to |t.routes|
      invariant forall j :: 0 <= j < i ==> RouteSound(t, t.routes[j])
    {
      RouteErrorMeaning(t, byId.value, t.routes[i]);
      var e := RouteError(byId.value, t.routes[i]);
      if e.Some? {
        return Err(e.value);
      }
    }
    if t.fallbackAgent.Some? && t.fallbackAgent.value !in Ids(t.specialists) {
      return Err(BadFallback);
    }
    var deadlock, order := RaiseOnDeadlock(t.routes);
    if deadlock {
      return Err(DeadlockCycle);
    }
    if !providerConfigEmpty {
      return Err(ProviderConfigNotEmpty);
    }
    return Ok(t);
  }

  // ---- handoffs ----

  datatype HandoffError = UnknownMember | NoRoute

  /** The first declared route for an agent and an output. */
  function FirstRoute(routes: seq<Route>, from: AgentId, output: string): Option<Route> {
    if routes == [] then None
    else if routes[0].fromAgent == from && routes[0].output == output then Some(routes[0])
    else FirstRoute(routes[1..], from, output)
  }

  function RouteHandoff(t: Team, from: AgentId, output: string): Result<Route, HandoffError> {
    if from !in Ids(Members(t)) then Err(UnknownMember)
    else
      var declared := FirstRoute(t.routes, from, output);
      if declared.Some? then Ok(declared.value)
      else if from == t.dispatcher.id && t.fallbackAgent.Some? then
        Ok(Route(from, output, t.fallbackAgent.value, "team-fallback-handoff", true))
      else Err(NoRoute)
  }

  lemma {:induction false} FirstRouteSound(routes: seq<Route>, from: AgentId, output: string)
    ensures var r := FirstRoute(routes, from, output);
      && (r.Some? ==> r.value in routes && r.value.fromAgent == from && r.value.output == output)
      && (r.None? <==> forall i :: 0 <= i < |routes| ==> routes[i].fromAgent != from || routes[i].output != output)
  {
    if routes == [] {
    } else {
      FirstRouteSound(routes[1..], from, output);
      assert routes == [routes[0]] + routes[1..];
    }
  }

  predicate Matches(r: Route, from: AgentId, output: string) {
    r.fromAgent == from && r.output == output
  }

  ghost predicate FirstMatchAt(routes: seq<Route>, from: AgentId, output: string, i: nat) {
    && i < |routes| && Matches(routes[i], from, output)
    && forall j :: 0 <= j < i ==> !Matches(routes[j], from, output)
  }

  /** The lookup takes the first of the matching routes. */
  lemma {:induction false} FirstRouteIsFirst(routes: seq<Route>, from: AgentId, output: string, i: nat)
    requires FirstMatchAt(routes, from, output, i)
    ensures FirstRoute(routes, from, output) == Some(routes[i])
  {
    if i > 0 {
      assert !Matches(routes[0], from, output);
      assert forall j :: 0 <= j < i - 1 ==> routes[1..][j] == routes[j + 1];
      FirstRouteIsFirst(routes[1..], from, output, i - 1);
    }
  }

  lemma MemberIds(t: Team, from: AgentId)
    ensures from in Ids(Members(t)) <==>
      from == t.dispatcher.id || exists k :: 0 <= k < |t.specialists| && t.specialists[k].id == from
  {
    var ids := Ids(Members(t));
    assert ids[0] == t.dispatcher.id;
    if from in ids {
      var i :| 0 <= i < |ids| && ids[i] == from;
      assert i > 0 ==> t.specialists[i - 1].id == from;
    }
    if k :| 0 <= k < |t.specialists| && t.specialists[k].id == from {
      assert ids[k + 1] == from;
    }
  }

  /** Handoffs, written out: who may hand over, which declared route is taken, when the
      fallback answers and with what, and when there is no route. */
  lemma HandoffWritten(t: Team, from: AgentId, output: string)
    ensures var r := RouteHandoff(t, from, output);
      var member := from == t.dispatcher.id || exists k :: 0 <= k < |t.specialists| && t.specialists[k].id == from;
      var declared := exists i :: 0 <= i < |t.routes| && Matches(t.routes[i], from, output);
      var fallback := from == t.dispatcher.id && t.fallbackAgent.Some?;
      && (r == Err(UnknownMember) <==> !member)
      && (r == Err(NoRoute) <==> member && !declared && !fallback)
      && (member && !declared && fallback ==>
            r == Ok(Route(from, output, t.fallbackAgent.value, "team-fallback-handoff", true)))
      && (forall i: nat :: member && FirstMatchAt(t.routes, from, output, i) ==> r == Ok(t.routes[i]))
  {
    MemberIds(t, from);
    FirstRouteSound(t.routes, from, output);
    forall i: nat | FirstMatchAt(t.routes, from, output, i)
      ensures FirstRoute(t.routes, from, output) == Some(t.routes[i])
    {
      FirstRouteIsFirst(t.routes, from, output, i);
    }
    if i :| 0 <= i < |t.routes| && Matches(t.routes[i], from, output) {
      assert FirstRoute(t.routes, from, output).Some?;
    }
  }

  /** Agents `a[0], a[1], ...`, each handing its output to the next. */
  ghost predicate Chain(t: Team, a: seq<AgentId>, outputs: seq<string>) {
    && |a| >= 1 && |outputs| == |a| - 1
    && a[0] in Ids(Members(t))
    && forall i :: 0 <= i < |outputs| ==>
        RouteHandoff(t, a[i], outputs[i]).Ok? && RouteHandoff(t, a[i], outputs[i]).value.toAgent == a[i + 1]
  }

  /** A hop that a declared route answers, rather than the fallback. */
  ghost predicate DeclaredHop(t: Team, a: seq<AgentId>, outputs: seq<string>, i: nat)
    requires i < |a| && i < |outputs|
  {
    FirstRoute(t.routes, a[i], outputs[i]).Some?
  }

  ghost predicate DeclaredChain(t: Team, a: seq<AgentId>, outputs: seq<string>) {
    Chain(t, a, outputs) && forall i :: 0 <= i < |outputs| ==> DeclaredHop(t, a, outputs, i)
  }

  lemma ChainMembers(t: Team, a: seq<AgentId>, outputs: seq<string>, i: nat)
    requires Constructed(t) && Chain(t, a, outputs) && i < |a|
    ensures a[i] in Ids(Members(t))
  {
    if i > 0 {
      FirstRouteSound(t.routes, a[i - 1], outputs[i - 1]);
      assert Members(t)[1..] == t.specialists;
      if t.fallbackAgent.Some? && t.fallbackAgent.value == a[i] {
        var k :| 0 <= k < |t.specialists| && Ids(t.specialists)[k] == a[i];
        assert Ids(Members(t))[k + 1] == a[i];
      }
    }
  }

  lemma DeclaredHopIsEdge(t: Team, a: seq<AgentId>, outputs: seq<string>, i: nat)
    requires Chain(t, a, outputs) && i < |outputs| && DeclaredHop(t, a, outputs, i)
    ensures Edge(t.routes, a[i], a[i + 1])
  {
    FirstRouteSound(t.routes, a[i], outputs[i]);
    var r := FirstRoute(t.routes, a[i], outputs[i]).value;
    var k :| 0 <= k < |t.routes| && t.routes[k] == r;
  }

  lemma DeclaredLoopIsCycle(t: Team, a: seq<AgentId>, outputs: seq<string>, i: nat, j: nat)
    requires Chain(t, a, outputs)
    requires i < j < |a| && a[i] == a[j]
    requires forall k :: i <= k < j ==> DeclaredHop(t, a, outputs, k)
    ensures HasCycle(t.routes)
  {
    var p := a[i..j + 1];
    forall k | 0 <= k < |p| - 1
      ensures Edge(t.routes, p[k], p[k + 1])
    {
      DeclaredHopIsEdge(t, a, outputs, i + k);
    }
    assert IsCycle(t.routes, p);
  }

  /** Between two visits of the same agent lies a handoff that only the fallback answers. */
  lemma RepeatUsesFallback(t: Team, a: seq<AgentId>, outputs: seq<string>, i: nat, j: nat)
    requires Constructed(t) && Chain(t, a, outputs)
    requires i < j < |a| && a[i] == a[j]
    ensures exists k :: i <= k < j && !DeclaredHop(t, a, outputs, k)
  {
    if forall k :: i <= k < j ==> DeclaredHop(t, a, outputs, k) {
      DeclaredLoopIsCycle(t, a, outputs, i, j);
      assert false;
    }
  }

  /** In a constructed team a chain of declared handoffs visits every member at most
      once, so it makes fewer handoffs than the team has members. */
  lemma DeclaredChainsAreSimple(t: Team, a: seq<AgentId>, outputs: seq<string>)
    requires Constructed(t) && DeclaredChain(t, a, outputs)
    ensures NoDup(a) && |outputs| < |Members(t)|
  {
    forall i, j | 0 <= i < j < |a|
      ensures a[i] != a[j]
    {
      if a[i] == a[j] {
        RepeatUsesFallback(t, a, outputs, i, j);
      }
    }
    forall i | 0 <= i < |a|
      ensures a[i] in Elems(Ids(Members(t)))
    {
      ChainMembers(t, a, outputs, i);
    }
    Pigeonhole(a, Elems(Ids(Members(t))));
    ElemsSize(Ids(Members(t)));
  }

  lemma {:induction false} ElemsSize<T>(s: seq<T>)
    ensures |Elems(s)| <= |s|
  {
    if s == [] {
    } else {
      var n := |s| - 1;
      ElemsSize(s[..n]);
      ElemsSnoc(s[..n], s[n]);
      assert s == s[..n] + [s[n]];
    }
  }

  // ---- the fallback edge, which the search does not see ----

  lemma {:induction false} FreshOutput(routes: seq<Route>) returns (output: string)
    ensures output != "" && forall i :: 0 <= i < |routes| ==> |routes[i].output| < |output|
  {
    if routes == [] {
      output := "x";
    } else {
      var n := |routes| - 1;
      output := FreshOutput(routes[..n]);
      if |routes[n].output| >= |output| {
        output := routes[n].output + "x";
      }
      assert forall i :: 0 <= i < n ==> routes[i] == routes[..n][i];
    }
  }

  lemma SubChain(t: Team, a: seq<AgentId>, outputs: seq<string>, i: nat, j: nat)
    requires Constructed(t) && Chain(t, a, outputs) && i <= j < |a|
    requires forall k :: i <= k < j ==> DeclaredHop(t, a, outputs, k)
    ensures DeclaredChain(t, a[i..j + 1], outputs[i..j])
  {
    ChainMembers(t, a, outputs, i);
    var b, o := a[i..j + 1], outputs[i..j];
    forall k | 0 <= k < |o|
      ensures RouteHandoff(t, b[k], o[k]).Ok? && RouteHandoff(t, b[k], o[k]).value.toAgent == b[k + 1]
      ensures FirstRoute(t.routes, b[k], o[k]).Some?
    {
      assert b[k] == a[i + k] && b[k + 1] == a[i + k + 1] && o[k] == outputs[i + k];
      assert DeclaredHop(t, a, outputs, i + k);
    }
  }

  lemma JoinChains(t: Team, a: seq<AgentId>, o: seq<string>, b: seq<AgentId>, p: seq<string>)
    requires DeclaredChain(t, a, o) && DeclaredChain(t, b, p) && a[|a| - 1] == b[0]
    ensures DeclaredChain(t, a + b[1..], o + p)
  {
    var c, q := a + b[1..], o + p;
    forall k | 0 <= k < |q|
      ensures RouteHandoff(t, c[k], q[k]).Ok? && RouteHandoff(t, c[k], q[k]).value.toAgent == c[k + 1]
      ensures FirstRoute(t.routes, c[k], q[k]).Some?
    {
      if k < |o| {
        assert c[k] == a[k] && c[k + 1] == a[k + 1] && q[k] == o[k];
        assert DeclaredHop(t, a, o, k);
      } else {
        var m := k - |o|;
        assert c[k] == b[m] && c[k + 1] == b[m + 1] && q[k] == p[m];
        assert DeclaredHop(t, b, p, m);
      }
    }
  }

  /** Declared handoffs lead from the fallback agent back to the dispatcher. */
  ghost predicate FallbackReturns(t: Team) {
    && t.fallbackAgent.Some?
    && exists a, o :: DeclaredChain(t, a, o) && a[0] == t.fallbackAgent.value && a[|a| - 1] == t.dispatcher.id
  }

  ghost predicate CanRepeat(t: Team) {
    exists a, o :: Chain(t, a, o) && !NoDup(a)
  }

  lemma {:induction false} FirstUndeclared(t: Team, a: seq<AgentId>, o: seq<string>, i: nat, j: nat) returns (k: nat)
    requires Chain(t, a, o) && i < j < |a|
    requires exists k :: i <= k < j && !DeclaredHop(t, a, o, k)
    ensures i <= k < j && !DeclaredHop(t, a, o, k)
    ensures forall m :: i <= m < k ==> DeclaredHop(t, a, o, m)
    decreases j - i
  {
    k := i;
    if DeclaredHop(t, a, o, i) {
      k := FirstUndeclared(t, a, o, i + 1, j);
    }
  }

  lemma {:induction false} LastUndeclared(t: Team, a: seq<AgentId>, o: seq<string>, i: nat, j: nat) returns (k: nat)
    requires Chain(t, a, o) && i < j < |a|
    requires exists k :: i <= k < j && !DeclaredHop(t, a, o, k)
    ensures i <= k < j && !DeclaredHop(t, a, o, k)
    ensures forall m :: k < m < j ==> DeclaredHop(t, a, o, m)
    decreases j - i
  {
    k := j - 1;
    if DeclaredHop(t, a, o, j - 1) {
      k := LastUndeclared(t, a, o, i, j - 1);
    }
  }

  lemma UndeclaredHopIsFallback(t: Team, a: seq<AgentId>, o: seq<string>, k: nat)
    requires Chain(t, a, o) && k < |o| && !DeclaredHop(t, a, o, k)
    ensures a[k] == t.dispatcher.id && t.fallbackAgent == Some(a[k + 1])
  {
  }

  /** From `last + 1` to the end of a loop and on from its beginning to `first`. */
  lemma AroundLoop(t: Team, a: seq<AgentId>, o: seq<string>, i: nat, j: nat, first: nat, last: nat)
      returns (d: seq<AgentId>, q: seq<string>)
    requires Constructed(t) && Chain(t, a, o) && i <= first <= last < j < |a| && a[i] == a[j]
    requires forall m :: i <= m < first ==> DeclaredHop(t, a, o, m)
    requires forall m :: last < m < j ==> DeclaredHop(t, a, o, m)
    ensures DeclaredChain(t, d, q) && d[0] == a[last + 1] && d[|d| - 1] == a[first]
  {
    SubChain(t, a, o, last + 1, j);
    SubChain(t, a, o, i, first);
    var b, p := a[last + 1..j + 1], o[last + 1..j];
    var c, r := a[i..first + 1], o[i..first];
    assert b[|b| - 1] == a[j] && c[0] == a[i] && c[|c| - 1] == a[first] && b[0] == a[last + 1];
    JoinChains(t, b, p, c, r);
    d, q := b + c[1..], p + r;
  }

  /** If a chain comes back to an agent, cut its loop at the fallback hops: what remains
      is a declared way from the fallback agent to the dispatcher. */
  lemma RepeatMeansReturn(t: Team, a: seq<AgentId>, o: seq<string>, i: nat, j: nat)
    requires Constructed(t) && Chain(t, a, o) && i < j < |a| && a[i] == a[j]
    ensures FallbackReturns(t)
  {
    RepeatUsesFallback(t, a, o, i, j);
    var first := FirstUndeclared(t, a, o, i, j);
    var last := LastUndeclared(t, a, o, i, j);
    UndeclaredHopIsFallback(t, a, o, first);
    UndeclaredHopIsFallback(t, a, o, last);
    var d, q := AroundLoop(t, a, o, i, j, first, last);
  }

  lemma ReturnMeansRepeat(t: Team, a: seq<AgentId>, o: seq<string>)
    requires Constructed(t) && t.fallbackAgent.Some?
    requires DeclaredChain(t, a, o) && a[0] == t.fallbackAgent.value && a[|a| - 1] == t.dispatcher.id
    ensures CanRepeat(t)
  {
    var unrouted := FreshOutput(t.routes);
    var b, p := a + [a[0]], o + [unrouted];
    FirstRouteSound(t.routes, t.dispatcher.id, unrouted);
    assert Ids(Members(t))[0] == t.dispatcher.id;
    forall k | 0 <= k < |p|
      ensures RouteHandoff(t, b[k], p[k]).Ok? && RouteHandoff(t, b[k], p[k]).value.toAgent == b[k + 1]
    {
      if k < |o| {
        assert b[k] == a[k] && b[k + 1] == a[k + 1] && p[k] == o[k];
      } else {
        assert b[k] == t.dispatcher.id && p[k] == unrouted && b[k + 1] == a[0];
      }
    }
    assert Chain(t, b, p);
    assert b[0] == b[|a|];
  }

  /** With the fallback included, handoffs can come back to an agent exactly when the
      declared routes lead from the fallback agent to the dispatcher. */
  lemma RepeatsExactlyWhenFallbackReturns(t: Team)
    requires Constructed(t)
    ensures CanRepeat(t) <==> FallbackReturns(t)
  {
    if CanRepeat(t) {
      var a, o :| Chain(t, a, o) && !NoDup(a);
      var i, j :| 0 <= i < j < |a| && a[i] == a[j];
      RepeatMeansReturn(t, a, o, i, j);
    }
    if FallbackReturns(t) {
      var a, o :| DeclaredChain(t, a, o) && a[0] == t.fallbackAgent.value && a[|a| - 1] == t.dispatcher.id;
      ReturnMeansRepeat(t, a, o);
    }
  }

  const LOOPING_TEAM := Team(
    SubAgent("desk", ["brief"]), [SubAgent("writer", ["draft"])],
    [Route("writer", "draft", "desk", "text", false)], Some("writer"))

  /** Such a team passes construction: the fallback edge is not part of the searched graph. */
  lemma LoopingTeamIsConstructed()
    ensures Constructed(LOOPING_TEAM) && CanRepeat(LOOPING_TEAM)
  {
    var t := LOOPING_TEAM;
    assert Members(t) == [SubAgent("desk", ["brief"]), SubAgent("writer", ["draft"])];
    assert Ids(Members(t)) == ["desk", "writer"] && Ids(t.specialists) == ["writer"];
    assert "desk" != "writer" by {
      assert |"desk"| != |"writer"|;
    }
    assert Members(t)[1].id == "writer" && "draft" in Members(t)[1].expectedOutputs;
    assert RouteSound(t, t.routes[0]);
    TopologicalNoCycle(t.routes, ["desk", "writer"]) by {
      assert ["desk", "writer"][..1] == ["desk"];
    }
    assert FirstRoute(t.routes, "writer", "draft") == Some(t.routes[0]);
    assert DeclaredHop(t, ["writer", "desk"], ["draft"], 0);
    assert DeclaredChain(t, ["writer", "desk"], ["draft"]);
    RepeatsExactlyWhenFallbackReturns(t);
  }
}
