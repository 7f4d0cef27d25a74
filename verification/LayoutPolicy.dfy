// The engine policy table, Kahn's acyclicity test, structural classification and
// the choice of class, engine and focus.

module LayoutPolicy {
  import opened Common
  import opened Ordering
  import opened Graphs
  import opened LayoutGraph

  /** Edges into n whose source has not been visited. */
  ghost function InCount(edges: seq<Edge>, n: string, visited: set<string>): nat {
    if edges == [] then 0
    else
      var last := edges[|edges| - 1];
      InCount(edges[..|edges| - 1], n, visited) + if last.target == n && last.source !in visited then 1 else 0
  }

  ghost function OutTargets(edges: seq<Edge>, n: string): seq<string> {
    if edges == [] then []
    else
      var last := edges[|edges| - 1];
      OutTargets(edges[..|edges| - 1], n) + if last.source == n then [last.target] else []
  }

  lemma {:induction false} VisitingReleases(edges: seq<Edge>, n: string, visited: set<string>, node: string)
    requires node !in visited
    ensures InCount(edges, n, visited) == InCount(edges, n, visited + {node}) + multiset(OutTargets(edges, node))[n]
  {
    if edges != [] {
      VisitingReleases(edges[..|edges| - 1], n, visited, node);
    }
  }

  lemma {:induction false} ZeroInCount(edges: seq<Edge>, n: string, visited: set<string>)
    ensures InCount(edges, n, visited) == 0 <==> forall e :: e in edges && e.target == n ==> e.source in visited
  {
    if edges != [] {
      var init, last := edges[..|edges| - 1], edges[|edges| - 1];
      ZeroInCount(init, n, visited);
      assert edges == init + [last];
      assert last in edges;
    }
  }

  lemma {:induction false} TargetsAreKnown(edges: seq<Edge>, node: string, ids: set<string>)
    requires forall e :: e in edges ==> e.target in ids
    ensures forall t :: t in OutTargets(edges, node) ==> t in ids
  {
    if edges != [] {
      var init, last := edges[..|edges| - 1], edges[|edges| - 1];
      TargetsAreKnown(init, node, ids);
      assert last in edges;
    }
  }

  /** The invariant of both loops; pending holds the released targets not yet decremented. */
  ghost predicate QueueInvariant(ids: set<string>, edges: seq<Edge>, indegree: map<string, int>,
                                 done: seq<string>, queue: seq<string>, pending: seq<string>)
  {
    && indegree.Keys == ids
    && Distinct(done) && Distinct(queue) && (forall n :: n in done ==> n !in queue)
    && (forall n :: n in pending ==> n in ids)
    && (forall n :: n in done || n in queue <==> n in ids && indegree[n] == 0)
    && (forall n :: n in ids ==> indegree[n] == InCount(edges, n, Elements(done)) + multiset(pending)[n])
    && Topological(Arcs(edges), done)
  }

  lemma VisitExtendsOrder(edges: seq<Edge>, done: seq<string>, node: string)
    requires Topological(Arcs(edges), done) && InCount(edges, node, Elements(done)) == 0
    ensures Topological(Arcs(edges), done + [node])
  {
    var longer := done + [node];
    ZeroInCount(edges, node, Elements(done));
    forall i, a | 0 <= i < |longer| && (a, longer[i]) in Arcs(edges) ensures a in longer[..i] {
      if i == |done| {
        var e :| e in edges && e.source == a && e.target == node;
        assert longer[..i] == done;
      } else {
        assert longer[i] == done[i] && longer[..i] == done[..i];
      }
    }
  }

  /** Popping a node turns its outgoing targets into pending decrements. */
  lemma VisitNext(ids: set<string>, edges: seq<Edge>, indegree: map<string, int>,
                  done: seq<string>, queue: seq<string>, targets: seq<string>)
    requires QueueInvariant(ids, edges, indegree, done, queue, []) && queue != []
    requires multiset(targets) == multiset(OutTargets(edges, queue[0]))
    requires forall n :: n in targets ==> n in ids
    ensures QueueInvariant(ids, edges, indegree, done + [queue[0]], queue[1..], targets)
    ensures queue[0] !in Elements(done) && Elements(done + [queue[0]]) == Elements(done) + {queue[0]}
  {
    hide InCount, OutTargets, Topological, Arcs;
    var node := queue[0];
    assert queue == [node] + queue[1..];
    assert node in queue && node !in done && node !in queue[1..];
    assert Elements(done + [node]) == Elements(done) + {node};
    VisitExtendsOrder(edges, done, node);
    forall n | n in ids ensures indegree[n] == InCount(edges, n, Elements(done + [node])) + multiset(targets)[n] {
      VisitingReleases(edges, n, Elements(done), node);
    }
  }

  /** One decrement, and the append when it reaches zero. */
  lemma ReleaseNext(ids: set<string>, edges: seq<Edge>, indegree: map<string, int>, done: seq<string>, queue: seq<string>,
                    t: string, rest: seq<string>, less: map<string, int>, longer: seq<string>)
    requires QueueInvariant(ids, edges, indegree, done, queue, [t] + rest) && t in indegree
    requires less == indegree[t := indegree[t] - 1]
    requires longer == if less[t] == 0 then queue + [t] else queue
    ensures QueueInvariant(ids, edges, less, done, longer, rest)
  {
    var pending := [t] + rest;
    assert multiset(pending) == multiset{t} + multiset(rest);
    assert t in pending && indegree[t] > 0;
    assert t !in done && t !in queue;
  }

  ghost predicate Counted(ids: set<string>, edges: seq<Edge>, indegree: map<string, int>, outgoing: map<string, seq<string>>) {
    && indegree.Keys == ids && outgoing.Keys == ids
    && forall n :: n in ids ==> indegree[n] == InCount(edges, n, {}) && outgoing[n] == OutTargets(edges, n)
  }

  lemma CountNext(ids: set<string>, edges: seq<Edge>, i: nat, indegree: map<string, int>, outgoing: map<string, seq<string>>)
    requires i < |edges| && edges[i].source in ids && edges[i].target in ids
    requires Counted(ids, edges[..i], indegree, outgoing)
    ensures Counted(ids, edges[..i + 1], indegree[edges[i].target := indegree[edges[i].target] + 1],
                    outgoing[edges[i].source := outgoing[edges[i].source] + [edges[i].target]])
  {
    var longer := edges[..i + 1];
    assert longer[..|longer| - 1] == edges[..i] && longer[|longer| - 1] == edges[i];
  }

  lemma SelfLoopIsCycle(edges: seq<Edge>, e: Edge)
    requires e in edges && e.source == e.target
    ensures Cyclic(Arcs(edges))
  {
    var w := [e.source, e.source];
    assert (e.source, e.target) in Arcs(edges);
    assert ArcAt(Arcs(edges), w, 0);
    assert Joins(Arcs(edges), w, e.source, e.source);
    assert OnCycle(Arcs(edges), e.source);
  }

  method CountDegrees(nodes: seq<Node>, edges: seq<Edge>)
    returns (looped: bool, indegree: map<string, int>, outgoing: map<string, seq<string>>)
    requires KnownEndpoints(nodes, edges)
    ensures looped ==> Cyclic(Arcs(edges))
    ensures !looped ==> Counted(IdSet(nodes), edges, indegree, outgoing)
  {
    looped := false;
    var ids := IdSet(nodes);
    indegree := map n | n in ids :: 0;
    outgoing := map n | n in ids :: [];
    for i := 0 to |edges|
      invariant Counted(ids, edges[..i], indegree, outgoing)
    {
      var e := edges[i];
      assert e in edges && e.source in ids && e.target in ids;
      if e.source == e.target {
        SelfLoopIsCycle(edges, e);
        looped := true;
        return;
      }
      CountNext(ids, edges, i, indegree, outgoing);
      outgoing := outgoing[e.source := outgoing[e.source] + [e.target]];
      indegree := indegree[e.target := indegree[e.target] + 1];
    }
    assert edges[..|edges|] == edges;
  }

  lemma SortedTargets(nodes: seq<Node>, edges: seq<Edge>, node: string, targets: seq<string>)
    requires KnownEndpoints(nodes, edges) && multiset(targets) == multiset(OutTargets(edges, node))
    ensures forall t :: t in targets ==> t in IdSet(nodes)
  {
    TargetsAreKnown(edges, node, IdSet(nodes));
    forall t | t in targets ensures t in IdSet(nodes) {
      assert t in multiset(targets) && t in multiset(OutTargets(edges, node));
    }
  }

  lemma QueueStarts(ids: set<string>, edges: seq<Edge>, indegree: map<string, int>, queue: seq<string>)
    requires indegree.Keys == ids && Distinct(queue)
    requires forall n :: n in ids ==> indegree[n] == InCount(edges, n, {})
    requires forall n :: n in queue <==> n in ids && indegree[n] == 0
    ensures QueueInvariant(ids, edges, indegree, [], queue, [])
  {
    assert Elements<string>([]) == {};
  }

  /** When the queue runs dry, every node was visited exactly when there is no cycle. */
  lemma DryQueueVerdict(nodes: seq<Node>, edges: seq<Edge>, indegree: map<string, int>, done: seq<string>)
    requires KnownEndpoints(nodes, edges) && QueueInvariant(IdSet(nodes), edges, indegree, done, [], [])
    ensures |done| == |nodes| <==> Distinct(NodeIds(nodes)) && !Cyclic(Arcs(edges))
  {
    var ids, rest := IdSet(nodes), IdSet(nodes) - Elements(done);
    CardinalityTellsDistinct(NodeIds(nodes));
    DistinctCardinality(done);
    assert ids == Elements(done) + rest;
    assert |ids| == |done| + |rest|;
    hide Distinct, NodeIds;
    if rest == {} {
      AllDoneHasNoCycle(nodes, edges, done);
    } else {
      RestForcesCycle(nodes, edges, indegree, done);
    }
  }

  lemma AllDoneHasNoCycle(nodes: seq<Node>, edges: seq<Edge>, done: seq<string>)
    requires KnownEndpoints(nodes, edges) && Topological(Arcs(edges), done) && IdSet(nodes) <= Elements(done)
    ensures !Cyclic(Arcs(edges))
  {
    TopologicalHasNoCycle(Arcs(edges), done);
    hide Topological;
    forall a | OnCycle(Arcs(edges), a) ensures false {
      CycleNodesAreKnown(nodes, edges, a);
    }
  }

  lemma RestForcesCycle(nodes: seq<Node>, edges: seq<Edge>, indegree: map<string, int>, done: seq<string>)
    requires KnownEndpoints(nodes, edges) && QueueInvariant(IdSet(nodes), edges, indegree, done, [], [])
    requires IdSet(nodes) - Elements(done) != {}
    ensures Cyclic(Arcs(edges))
  {
    hide Topological, Cyclic;
    var rest := IdSet(nodes) - Elements(done);
    forall b | b in rest ensures HasPredecessor(Arcs(edges), rest, b) {
      ZeroInCount(edges, b, Elements(done));
      var e :| e in edges && e.target == b && e.source !in Elements(done);
      assert (e.source, b) in Arcs(edges) && e.source in rest;
    }
    PredecessorsForceCycle(Arcs(edges), rest);
  }

  lemma CycleNodesAreKnown(nodes: seq<Node>, edges: seq<Edge>, a: string)
    requires KnownEndpoints(nodes, edges) && OnCycle(Arcs(edges), a)
    ensures a in IdSet(nodes)
  {
    var w :| Joins(Arcs(edges), w, a, a) && |w| >= 2;
    assert ArcAt(Arcs(edges), w, 0);
    assert (w[0], w[1]) in Arcs(edges);
  }

  /** The inner loop: decrement each released target, queueing those that reach zero. */
  method ReleaseTargets(ghost ids: set<string>, ghost edges: seq<Edge>, indegree0: map<string, int>,
                        ghost done: seq<string>, queue0: seq<string>, targets: seq<string>)
    returns (indegree: map<string, int>, queue: seq<string>)
    requires QueueInvariant(ids, edges, indegree0, done, queue0, targets)
    ensures QueueInvariant(ids, edges, indegree, done, queue, [])
  {
    indegree, queue := indegree0, queue0;
    assert targets[0..] == targets && targets[|targets|..] == [];
    for k := 0 to |targets|
      invariant QueueInvariant(ids, edges, indegree, done, queue, targets[k..])
    {
      var t := targets[k];
      assert targets[k..] == [t] + targets[k + 1..] && t in targets[k..];
      ghost var before, queueBefore := indegree, queue;
      indegree := indegree[t := indegree[t] - 1];
      if indegree[t] == 0 {
        queue := queue + [t];
      }
      ReleaseNext(ids, edges, before, done, queueBefore, t, targets[k + 1..], indegree, queue);
    }
  }

  /** Kahn's test: true exactly when the ids are distinct and the directed multigraph has no cycle. */
  method IsDag(nodes: seq<Node>, edges: seq<Edge>) returns (dag: bool)
    requires KnownEndpoints(nodes, edges)
    ensures dag <==> Distinct(NodeIds(nodes)) && !Cyclic(Arcs(edges))
  {
    var looped, indegree, outgoing := CountDegrees(nodes, edges);
    if looped {
      return false;
    }
    var ids := IdSet(nodes);
    LeqIsTotal();
    var queue := SortedSet(Leq, set n | n in indegree && indegree[n] == 0);
    QueueStarts(ids, edges, indegree, queue);
    var visited := 0;
    ghost var done: seq<string> := [];
    while queue != []
      invariant QueueInvariant(ids, edges, indegree, done, queue, [])
      invariant visited == |done|
      decreases ids - Elements(done)
    {
      var node := queue[0];
      assert node in queue;
      var targets := SortBy(Leq, outgoing[node]);
      SortedTargets(nodes, edges, node, targets);
      VisitNext(ids, edges, indegree, done, queue, targets);
      queue := queue[1..];
      visited := visited + 1;
      done := done + [node];
      indegree, queue := ReleaseTargets(ids, edges, indegree, done, queue, targets);
    }
    DryQueueVerdict(nodes, edges, indegree, done);
    return visited == |nodes|;
  }

  // ----- The policy table -----

  datatype GraphClass =
    PlanDag | Derivation | QueryPlan | CodeMapSmall | CodeMapLarge | Neighborhood | EgoRadial | CyclicRing | Containment

  datatype LargeEngine = LargeEngine(engine: string, threshold: nat)

  datatype Policy = Policy(
    engine: string,
    graphAttrs: map<string, string>,
    large: Option<LargeEngine>,
    verifySiblingRanks: bool,
    clusterNodes: bool,
    focusRoot: bool,
    nonconstrainingEdgeKinds: set<string>)
  {
    function EngineFor(nodeCount: nat): string {
      if large.Some? && nodeCount >= large.value.threshold then large.value.engine else engine
    }
  }

  function Plain(engine: string, graphAttrs: map<string, string>): Policy {
    Policy(engine, graphAttrs, None, false, false, false, {})
  }

  function PolicyOf(c: GraphClass): Policy {
    match c
    case PlanDag =>
      Policy("dot", map["rankdir" := "LR", "ranksep" := "0.75", "nodesep" := "0.35"], None, true, false, false, {"verifies"})
    case Derivation => Plain("dot", map["rankdir" := "LR"])
    case QueryPlan => Plain("dot", map["rankdir" := "LR"])
    case CodeMapSmall => Plain("dot", map["rankdir" := "TB"])
    case CodeMapLarge => Plain("sfdp", map["overlap" := "prism"])
    case Neighborhood => Plain("neato", map["overlap" := "false"]).(large := Some(LargeEngine("sfdp", 200)))
    case EgoRadial => Plain("twopi", map[]).(focusRoot := true)
    case CyclicRing => Plain("circo", map[])
    case Containment => Plain("osage", map[]).(clusterNodes := true)
  }

  const DENSE_NODE_THRESHOLD := 200
  const DENSE_EDGE_FACTOR := 2
  const CONTAINMENT_EDGE_KINDS: set<string> := {"contains", "containment"}

  /** The documented automatic class, stated on the graph rather than on Kahn's run. */
  ghost function ClassOf(nodes: seq<Node>, edges: seq<Edge>): GraphClass {
    if edges != [] && forall e :: e in edges ==> e.kind in CONTAINMENT_EDGE_KINDS then Containment
    else if Distinct(NodeIds(nodes)) && !Cyclic(Arcs(edges)) then Derivation
    else if |nodes| >= DENSE_NODE_THRESHOLD && |edges| >= DENSE_EDGE_FACTOR * |nodes| then CodeMapLarge
    else Neighborhood
  }

  method ClassifyGraph(nodes: seq<Node>, edges: seq<Edge>) returns (c: GraphClass)
    requires KnownEndpoints(nodes, edges)
    ensures c == ClassOf(nodes, edges)
  {
    if edges != [] && forall i :: 0 <= i < |edges| ==> edges[i].kind in CONTAINMENT_EDGE_KINDS {
      return Containment;
    }
    var dag := IsDag(nodes, edges);
    if dag {
      return Derivation;
    }
    if |nodes| >= DENSE_NODE_THRESHOLD && |edges| >= DENSE_EDGE_FACTOR * |nodes| {
      return CodeMapLarge;
    }
    return Neighborhood;
  }

  datatype Resolution = Resolution(graphClass: GraphClass, policy: Policy, focusId: Option<string>)

  datatype FocusError = FocusUnknown | FocusNotAllowed

  function SmallestId(nodes: seq<Node>): (id: string)
    requires nodes != []
    ensures id in IdSet(nodes) && forall m :: m in IdSet(nodes) ==> Leq(id, m)
  {
    LeqIsTotal();
    assert NodeIds(nodes)[0] in IdSet(nodes);
    var ids := SortedSet(Leq, IdSet(nodes));
    assert |ids| != 0 && ids[0] in ids;
    ids[0]
  }

  ghost function Resolve(requested: Option<GraphClass>, nodes: seq<Node>, edges: seq<Edge>, focusId: Option<string>)
    : Result<Resolution, FocusError>
    requires nodes != []
  {
    var c := if requested.Some? then requested.value else ClassOf(nodes, edges);
    if PolicyOf(c).focusRoot then
      var focus := if focusId.Some? && focusId.value != "" then focusId.value else SmallestId(nodes);
      if focus in IdSet(nodes) then Ok(Resolution(c, PolicyOf(c), Some(focus))) else Err(FocusUnknown)
    else if focusId.Some? then Err(FocusNotAllowed)
    else Ok(Resolution(c, PolicyOf(c), None))
  }

  method ResolvePolicy(requested: Option<GraphClass>, nodes: seq<Node>, edges: seq<Edge>, focusId: Option<string>)
    returns (r: Result<Resolution, FocusError>)
    requires nodes != [] && KnownEndpoints(nodes, edges)
    ensures r == Resolve(requested, nodes, edges, focusId)
  {
    var selected;
    if requested.Some? {
      selected := requested.value;
    } else {
      selected := ClassifyGraph(nodes, edges);
    }
    var policy := PolicyOf(selected);
    if policy.focusRoot {
      var focus := if focusId.Some? && focusId.value != "" then focusId.value else SmallestId(nodes);
      if focus !in IdSet(nodes) {
        return Err(FocusUnknown);
      }
      return Ok(Resolution(selected, policy, Some(focus)));
    }
    if focusId.Some? {
      return Err(FocusNotAllowed);
    }
    return Ok(Resolution(selected, policy, None));
  }

  /** Class, engine and focus do not depend on the order in which nodes and edges are listed. */
  lemma ResolutionIgnoresOrder(requested: Option<GraphClass>, nodes: seq<Node>, edges: seq<Edge>, focusId: Option<string>,
                               nodes': seq<Node>, edges': seq<Edge>)
    requires nodes != [] && multiset(nodes) == multiset(nodes') && multiset(edges) == multiset(edges')
    ensures nodes' != [] && Resolve(requested, nodes, edges, focusId) == Resolve(requested, nodes', edges', focusId)
  {
    PermutedIds(nodes, nodes');
    PermutedEdges(edges, edges');
    CardinalityTellsDistinct(NodeIds(nodes));
    CardinalityTellsDistinct(NodeIds(nodes'));
    assert edges == [] <==> edges' == [];
    assert ClassOf(nodes, edges) == ClassOf(nodes', edges');
    LessTrichotomy(SmallestId(nodes), SmallestId(nodes'));
  }

  // ----- What is resolved, in plain terms -----

  ghost predicate AllContain(edges: seq<Edge>) {
    edges != [] && forall i :: 0 <= i < |edges| ==> edges[i].kind == "contains" || edges[i].kind == "containment"
  }

  ghost predicate Acyclic(nodes: seq<Node>, edges: seq<Edge>) {
    Distinct(NodeIds(nodes)) && !Cyclic(Arcs(edges))
  }

  /** Left to itself a graph is laid out by osage if its edges only contain, by dot from left to right
      if it is acyclic, and otherwise by sfdp from 200 nodes on and by neato below, whether or not it
      is dense enough to count as a large code map. */
  lemma AutomaticEngine(nodes: seq<Node>, edges: seq<Edge>)
    requires nodes != []
    ensures var r := Resolve(None, nodes, edges, None);
            && r.Ok? && r.value.focusId.None?
            && (r.value.graphClass.Containment? <==> AllContain(edges))
            && (r.value.graphClass.Derivation? <==> !AllContain(edges) && Acyclic(nodes, edges))
            && (r.value.graphClass.CodeMapLarge? <==>
                  !AllContain(edges) && !Acyclic(nodes, edges) && |nodes| >= 200 && |edges| >= 2 * |nodes|)
            && (r.value.graphClass.Neighborhood? <==>
                  !AllContain(edges) && !Acyclic(nodes, edges) && (|nodes| < 200 || |edges| < 2 * |nodes|))
            && r.value.policy.EngineFor(|nodes|) ==
                 if AllContain(edges) then "osage" else if Acyclic(nodes, edges) then "dot"
                 else if |nodes| >= 200 then "sfdp" else "neato"
  {
    ClassMeans(nodes, edges);
    hide ClassOf, AllContain, Acyclic, IdSet;
  }

  lemma ClassMeans(nodes: seq<Node>, edges: seq<Edge>)
    ensures ClassOf(nodes, edges) ==
            if AllContain(edges) then Containment else if Acyclic(nodes, edges) then Derivation
            else if |nodes| >= 200 && |edges| >= 2 * |nodes| then CodeMapLarge else Neighborhood
  {
    hide Distinct, Cyclic, NodeIds, Arcs;
    assert AllContain(edges) <==> edges != [] && forall e :: e in edges ==> e.kind in CONTAINMENT_EDGE_KINDS;
  }

  /** A requested class is honoured whatever the graph looks like. A focus is refused for every class
      but the radial one, which takes the least id in the absence of a focus and refuses an unknown one. */
  lemma RequestedEngine(c: GraphClass, nodes: seq<Node>, edges: seq<Edge>, focusId: Option<string>)
    requires nodes != []
    ensures var r := Resolve(Some(c), nodes, edges, focusId);
            var named := focusId.Some? && (focusId.value != "" || !c.EgoRadial?);
            && (r == Err(FocusNotAllowed) <==> named && !c.EgoRadial?)
            && (r == Err(FocusUnknown) <==> named && c.EgoRadial? && forall n :: n in nodes ==> n.id != focusId.value)
            && (r.Ok? ==>
                  && r.value.graphClass == c && (r.value.focusId.Some? <==> c.EgoRadial?)
                  && (c.EgoRadial? && named ==> r.value.focusId == focusId)
                  && (c.EgoRadial? && !named ==>
                        (exists n :: n in nodes && n.id == r.value.focusId.value)
                        && forall n :: n in nodes ==> !Less(n.id, r.value.focusId.value))
                  && r.value.policy.EngineFor(|nodes|) ==
                       (if c.PlanDag? || c.Derivation? || c.QueryPlan? || c.CodeMapSmall? then "dot"
                        else if c.EgoRadial? then "twopi" else if c.CyclicRing? then "circo" else if c.Containment? then "osage"
                        else if c.CodeMapLarge? || |nodes| >= 200 then "sfdp" else "neato")
                  && (r.value.policy.clusterNodes <==> c.Containment?) && (r.value.policy.verifySiblingRanks <==> c.PlanDag?)
                  && r.value.policy.nonconstrainingEdgeKinds == (if c.PlanDag? then {"verifies"} else {})
                  && r.value.policy.graphAttrs ==
                       (if c.PlanDag? then map["rankdir" := "LR", "ranksep" := "0.75", "nodesep" := "0.35"]
                        else if c.Derivation? || c.QueryPlan? then map["rankdir" := "LR"]
                        else if c.CodeMapSmall? then map["rankdir" := "TB"]
                        else if c.CodeMapLarge? then map["overlap" := "prism"]
                        else if c.Neighborhood? then map["overlap" := "false"] else map[]))
  {
    forall id ensures id in IdSet(nodes) <==> exists n :: n in nodes && n.id == id {
      if i :| 0 <= i < |nodes| && NodeIds(nodes)[i] == id { assert nodes[i] in nodes; }
    }
    StringOrder();
    forall n | n in nodes ensures n.id in IdSet(nodes) && !Less(n.id, SmallestId(nodes)) {
      var i :| 0 <= i < |nodes| && nodes[i] == n;
      assert NodeIds(nodes)[i] == n.id;
    }
  }
}
