// The layout request's graph and the checks made before it is laid out.

module LayoutGraph {
  import opened Common
  import opened Ordering

  datatype Node = Node(id: string, kind: string, cluster: Option<string>, wPx: real, hPx: real)

  datatype Edge = Edge(id: string, source: string, target: string, kind: string)

  const MAX_LAYOUT_NODES := 512
  const MAX_LAYOUT_EDGES := 4096

  function NodeIds(nodes: seq<Node>): (r: seq<string>)
    ensures |r| == |nodes| && forall i :: 0 <= i < |nodes| ==> r[i] == nodes[i].id
  {
    seq(|nodes|, i requires 0 <= i < |nodes| => nodes[i].id)
  }

  function EdgeIds(edges: seq<Edge>): (r: seq<string>)
    ensures |r| == |edges| && forall i :: 0 <= i < |edges| ==> r[i] == edges[i].id
  {
    seq(|edges|, i requires 0 <= i < |edges| => edges[i].id)
  }

  function IdSet(nodes: seq<Node>): set<string> {
    set n | n in NodeIds(nodes)
  }

  ghost function Arcs(edges: seq<Edge>): set<(string, string)> {
    set e | e in edges :: (e.source, e.target)
  }

  ghost predicate KnownEndpoints(nodes: seq<Node>, edges: seq<Edge>) {
    forall e :: e in edges ==> e.source in IdSet(nodes) && e.target in IdSet(nodes)
  }

  /** What validate_graph accepts. */
  ghost predicate ValidGraph(nodes: seq<Node>, edges: seq<Edge>) {
    && 1 <= |nodes| <= MAX_LAYOUT_NODES && |edges| <= MAX_LAYOUT_EDGES
    && Distinct(NodeIds(nodes)) && Distinct(EdgeIds(edges))
    && (forall n :: n in nodes ==> 1.0 <= n.wPx <= 10000.0 && 1.0 <= n.hPx <= 10000.0)
    && KnownEndpoints(nodes, edges)
  }

  datatype GraphError = NodeCount | EdgeCount | DuplicateNodeId | DuplicateEdgeId | BadDimension | UnknownEndpoint

  method ValidateGraph(nodes: seq<Node>, edges: seq<Edge>) returns (error: Option<GraphError>)
    ensures error.None? <==> ValidGraph(nodes, edges)
  {
    if !(1 <= |nodes| <= MAX_LAYOUT_NODES) {
      return Some(NodeCount);
    }
    if |edges| > MAX_LAYOUT_EDGES {
      return Some(EdgeCount);
    }
    var nodeIds, edgeIds := NodeIds(nodes), EdgeIds(edges);
    CardinalityTellsDistinct(nodeIds);
    CardinalityTellsDistinct(edgeIds);
    if |nodeIds| != |set x | x in nodeIds| {
      return Some(DuplicateNodeId);
    }
    if |edgeIds| != |set x | x in edgeIds| {
      return Some(DuplicateEdgeId);
    }
    for i := 0 to |nodes|
      invariant forall k :: 0 <= k < i ==> 1.0 <= nodes[k].wPx <= 10000.0 && 1.0 <= nodes[k].hPx <= 10000.0
    {
      if !(1.0 <= nodes[i].wPx <= 10000.0) || !(1.0 <= nodes[i].hPx <= 10000.0) {
        assert nodes[i] in nodes;
        return Some(BadDimension);
      }
    }
    var known := IdSet(nodes);
    for i := 0 to |edges|
      invariant forall k :: 0 <= k < i ==> edges[k].source in known && edges[k].target in known
    {
      if edges[i].source !in known || edges[i].target !in known {
        assert edges[i] in edges;
        return Some(UnknownEndpoint);
      }
    }
    return None;
  }

  lemma PermutedIds(nodes: seq<Node>, other: seq<Node>)
    requires multiset(nodes) == multiset(other)
    ensures IdSet(nodes) == IdSet(other) && |nodes| == |other|
    ensures forall n :: n in nodes <==> n in other
  {
    assert |nodes| == |multiset(nodes)| == |multiset(other)| == |other|;
    forall n ensures n in nodes <==> n in other {
      assert n in multiset(nodes) <==> n in multiset(other);
    }
    IdsSubset(nodes, other);
    IdsSubset(other, nodes);
  }

  lemma IdsSubset(nodes: seq<Node>, other: seq<Node>)
    requires forall n :: n in nodes ==> n in other
    ensures IdSet(nodes) <= IdSet(other)
  {
    forall id | id in IdSet(nodes) ensures id in IdSet(other) {
      var i :| 0 <= i < |nodes| && nodes[i].id == id;
      assert nodes[i] in other;
      var j :| 0 <= j < |other| && other[j] == nodes[i];
      assert NodeIds(other)[j] == id;
    }
  }

  lemma PermutedEdges(edges: seq<Edge>, other: seq<Edge>)
    requires multiset(edges) == multiset(other)
    ensures |edges| == |other| && Arcs(edges) == Arcs(other)
    ensures forall e :: e in edges <==> e in other
  {
    assert |edges| == |multiset(edges)| == |multiset(other)| == |other|;
    forall e ensures e in edges <==> e in other {
      assert e in multiset(edges) <==> e in multiset(other);
    }
  }
}
