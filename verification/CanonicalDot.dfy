// Canonical DOT serialisation: the lines in the order they are written, and why
// listing nodes and edges differently gives the same text.

module CanonicalDot {
  import opened Common
  import opened Ordering
  import opened LayoutGraph
  import opened LayoutPolicy

  /** Renderers supplied by the platform: decimal numbers, JSON string quoting, lower-casing. */
  datatype Platform = Platform(number: real -> string, quote: string -> string, lower: string -> string)

  /** The pieces of one DOT text, in the order they are written. */
  datatype Dot = Dot(
    attrs: seq<(string, string)>,
    clusters: seq<Cluster>,
    plain: seq<Node>,
    links: seq<Link>,
    ranks: seq<(string, string)>)

  datatype Cluster = Cluster(name: string, members: seq<Node>)

  datatype Link = Link(edge: Edge, nonconstraining: bool)

  function NodeStatement(p: Platform, n: Node): string {
    p.quote(n.id) + " [fixedsize=true, height=" + p.quote(p.number(n.hPx / 72.0)) + ", label=" + p.quote("")
    + ", shape=box, width=" + p.quote(p.number(n.wPx / 72.0)) + "];"
  }

  function AttrsText(p: Platform, attrs: seq<(string, string)>): string {
    if attrs == [] then ""
    else
      var last := attrs[|attrs| - 1];
      AttrsText(p, attrs[..|attrs| - 1]) + (if |attrs| == 1 then "" else ", ") + last.0 + "=" + p.quote(last.1)
  }

  function NodesText(p: Platform, nodes: seq<Node>, indent: string): string {
    if nodes == [] then ""
    else NodesText(p, nodes[..|nodes| - 1], indent) + indent + NodeStatement(p, nodes[|nodes| - 1]) + "\n"
  }

  function ClustersText(p: Platform, clusters: seq<Cluster>): string {
    if clusters == [] then ""
    else
      var last := clusters[|clusters| - 1];
      ClustersText(p, clusters[..|clusters| - 1])
      + "  subgraph " + p.quote("cluster_" + last.name) + " {\n" + NodesText(p, last.members, "    ") + "  }\n"
  }

  function LinksText(p: Platform, links: seq<Link>): string {
    if links == [] then ""
    else
      var last := links[|links| - 1];
      var attrs := [("id", last.edge.id), ("label", "")];
      LinksText(p, links[..|links| - 1])
      + "  " + p.quote(last.edge.source) + " -> " + p.quote(last.edge.target) + " ["
      + AttrsText(p, if last.nonconstraining then [("constraint", "false")] + attrs else attrs) + "];\n"
  }

  function RanksText(p: Platform, ranks: seq<(string, string)>): string {
    if ranks == [] then ""
    else
      var last := ranks[|ranks| - 1];
      RanksText(p, ranks[..|ranks| - 1]) + "  { rank=same; " + p.quote(last.0) + "; " + p.quote(last.1) + "; }\n"
  }

  function Text(p: Platform, dot: Dot): string {
    "strict digraph theorem_layout {\n"
    + (if dot.attrs == [] then "" else "  graph [" + AttrsText(p, dot.attrs) + "];\n")
    + ClustersText(p, dot.clusters)
    + NodesText(p, dot.plain, "  ")
    + LinksText(p, dot.links)
    + RanksText(p, dot.ranks)
    + "}\n"
  }

  // ----- The pieces, specified -----

  predicate NodeLeq(a: Node, b: Node) {
    Leq(a.id, b.id)
  }

  predicate EdgeLeq(a: Edge, b: Edge) {
    Less(a.source, b.source) || (a.source == b.source && PairLeq((a.target, a.id), (b.target, b.id)))
  }

  lemma NodeLeqIsTotal()
    ensures TotalPreorder(NodeLeq)
  {
    StringOrder();
  }

  lemma EdgeLeqIsTotal()
    ensures TotalPreorder(EdgeLeq)
  {
    StringOrder();
    forall a, b, c | Linked(EdgeLeq, a, b, c) ensures EdgeLeq(a, c) {
      PairLeqIsTotal();
      assert Linked(PairLeq, (a.target, a.id), (b.target, b.id), (c.target, c.id))
        || !PairLeq((a.target, a.id), (b.target, b.id)) || !PairLeq((b.target, b.id), (c.target, c.id));
    }
  }

  function SortedNodes(nodes: seq<Node>): (r: seq<Node>)
    ensures multiset(r) == multiset(nodes)
  {
    NodeLeqIsTotal();
    SortBy(NodeLeq, nodes)
  }

  function SortedEdges(edges: seq<Edge>): (r: seq<Edge>)
    ensures multiset(r) == multiset(edges)
  {
    EdgeLeqIsTotal();
    SortBy(EdgeLeq, edges)
  }

  function SortedNames(names: set<string>): (r: seq<string>)
    ensures Distinct(r) && forall x :: x in r <==> x in names
  {
    LeqIsTotal();
    SortedSet(Leq, names)
  }

  function AttrPairs(attrs: map<string, string>, keys: seq<string>): (r: seq<(string, string)>)
    requires forall k :: k in keys ==> k in attrs
    ensures |r| == |keys|
  {
    seq(|keys|, i requires 0 <= i < |keys| => (keys[i], attrs[keys[i]]))
  }

  function SortedAttrs(policy: Policy, focusId: Option<string>): seq<(string, string)> {
    var attrs := if focusId.Some? then policy.graphAttrs["root" := focusId.value] else policy.graphAttrs;
    AttrPairs(attrs, SortedNames(attrs.Keys))
  }

  /** A node joins a cluster only when its cluster name is present and not empty. */
  predicate InCluster(n: Node) {
    n.cluster.Some? && n.cluster.value != ""
  }

  function Clusters(nodes: seq<Node>): set<string> {
    set n | n in nodes && InCluster(n) :: n.cluster.value
  }

  function MembersOf(nodes: seq<Node>, name: string): seq<Node> {
    if nodes == [] then []
    else
      var last := nodes[|nodes| - 1];
      MembersOf(nodes[..|nodes| - 1], name) + if InCluster(last) && last.cluster.value == name then [last] else []
  }

  function ClustersOf(nodes: seq<Node>, names: seq<string>): (r: seq<Cluster>)
    ensures |r| == |names|
  {
    seq(|names|, i requires 0 <= i < |names| => Cluster(names[i], MembersOf(nodes, names[i])))
  }

  function Unclustered(nodes: seq<Node>, clustering: bool): seq<Node> {
    if nodes == [] then []
    else
      var last := nodes[|nodes| - 1];
      Unclustered(nodes[..|nodes| - 1], clustering) + if clustering && InCluster(last) then [] else [last]
  }

  function Links(edges: seq<Edge>, policy: Policy): (r: seq<Link>)
    ensures |r| == |edges|
  {
    seq(|edges|, i requires 0 <= i < |edges| => Link(edges[i], edges[i].kind in policy.nonconstrainingEdgeKinds))
  }

  /** The kind recorded for an id; a later node with the same id would win. */
  function KindOf(nodes: seq<Node>, id: string): string {
    if nodes == [] then ""
    else if nodes[|nodes| - 1].id == id then nodes[|nodes| - 1].kind
    else KindOf(nodes[..|nodes| - 1], id)
  }

  const WORK_KINDS: set<string> := {"work", "implementation"}
  const VERIFY_KINDS: set<string> := {"verify", "verification"}

  predicate Forward(p: Platform, nodes: seq<Node>, e: Edge) {
    e.kind == "verifies" && p.lower(KindOf(nodes, e.source)) in WORK_KINDS && p.lower(KindOf(nodes, e.target)) in VERIFY_KINDS
  }

  predicate Backward(p: Platform, nodes: seq<Node>, e: Edge) {
    e.kind == "verifies" && p.lower(KindOf(nodes, e.target)) in WORK_KINDS && p.lower(KindOf(nodes, e.source)) in VERIFY_KINDS
  }

  /** Work and verification nodes to be ranked together, each pair once, work first. */
  function RankGroups(p: Platform, nodes: seq<Node>, edges: seq<Edge>): set<(string, string)> {
    (set e | e in edges && Forward(p, nodes, e) :: (e.source, e.target))
    + (set e | e in edges && Backward(p, nodes, e) :: (e.target, e.source))
  }

  function SortedPairs(pairs: set<(string, string)>): (r: seq<(string, string)>)
    ensures Distinct(r) && forall x :: x in r <==> x in pairs
  {
    PairLeqIsTotal();
    SortedSet(PairLeq, pairs)
  }

  function DotOf(p: Platform, nodes: seq<Node>, edges: seq<Edge>, policy: Policy, focusId: Option<string>): Dot {
    var sorted := SortedNodes(nodes);
    Dot(SortedAttrs(policy, focusId),
        if policy.clusterNodes then ClustersOf(sorted, SortedNames(Clusters(sorted))) else [],
        Unclustered(sorted, policy.clusterNodes),
        Links(SortedEdges(edges), policy),
        if policy.verifySiblingRanks then SortedPairs(RankGroups(p, nodes, edges)) else [])
  }

  // ----- Each node is declared exactly once -----

  /** The nodes declared inside clusters. */
  ghost function InClusters(clusters: seq<Cluster>): multiset<Node> {
    if clusters == [] then multiset{}
    else InClusters(clusters[..|clusters| - 1]) + multiset(clusters[|clusters| - 1].members)
  }

  ghost function Declared(dot: Dot): multiset<Node> {
    InClusters(dot.clusters) + multiset(dot.plain)
  }

  /** The nodes whose cluster is one of the given names. */
  ghost function Clustered(nodes: seq<Node>, names: set<string>): multiset<Node> {
    if nodes == [] then multiset{}
    else
      var last := nodes[|nodes| - 1];
      Clustered(nodes[..|nodes| - 1], names)
      + if InCluster(last) && last.cluster.value in names then multiset{last} else multiset{}
  }

  lemma {:induction false} ClusteredSplits(nodes: seq<Node>, names: set<string>, name: string)
    requires name !in names
    ensures Clustered(nodes, names + {name}) == Clustered(nodes, names) + multiset(MembersOf(nodes, name))
  {
    if nodes != [] {
      ClusteredSplits(nodes[..|nodes| - 1], names, name);
    }
  }

  lemma LastNameIsNew(names: seq<string>)
    requires names != [] && Distinct(names)
    ensures var init, last := names[..|names| - 1], names[|names| - 1];
            Distinct(init) && last !in (set x | x in init) && (set x | x in names) == (set x | x in init) + {last}
  {
    assert names == names[..|names| - 1] + [names[|names| - 1]];
  }

  lemma {:induction false} InClustersIsClustered(nodes: seq<Node>, names: seq<string>)
    requires Distinct(names)
    ensures InClusters(ClustersOf(nodes, names)) == Clustered(nodes, set x | x in names)
  {
    if names == [] {
      NoneClustered(nodes);
      assert (set x | x in names) == {};
    } else {
      hide InClusters, Clustered, ClustersOf, MembersOf, Distinct;
      var init, last := names[..|names| - 1], names[|names| - 1];
      LastNameIsNew(names);
      assert names == init + [last];
      InClustersIsClustered(nodes, init);
      InClustersAppend(nodes, init, last);
      ClusteredSplits(nodes, (set x | x in init), last);
    }
  }

  lemma InClustersAppend(nodes: seq<Node>, names: seq<string>, last: string)
    ensures InClusters(ClustersOf(nodes, names + [last]))
         == InClusters(ClustersOf(nodes, names)) + multiset(MembersOf(nodes, last))
  {
    var longer := ClustersOf(nodes, names + [last]);
    assert longer[..|longer| - 1] == ClustersOf(nodes, names);
  }

  lemma {:induction false} NoneClustered(nodes: seq<Node>)
    ensures Clustered(nodes, {}) == multiset{}
  {
    if nodes != [] {
      NoneClustered(nodes[..|nodes| - 1]);
    }
  }

  lemma {:induction false} ClusteredOrPlain(nodes: seq<Node>, names: set<string>)
    requires forall n :: n in nodes && InCluster(n) ==> n.cluster.value in names
    ensures Clustered(nodes, names) + multiset(Unclustered(nodes, true)) == multiset(nodes)
  {
    if nodes != [] {
      var init, last := nodes[..|nodes| - 1], nodes[|nodes| - 1];
      assert nodes == init + [last];
      ClusteredOrPlain(init, names);
      assert last in nodes;
    }
  }

  lemma {:induction false} UnclusteredIsAll(nodes: seq<Node>)
    ensures Unclustered(nodes, false) == nodes
  {
    if nodes != [] {
      UnclusteredIsAll(nodes[..|nodes| - 1]);
      assert nodes == nodes[..|nodes| - 1] + [nodes[|nodes| - 1]];
    }
  }

  /** The DOT declares every node exactly once, clustered or not. */
  lemma DeclaresEachNodeOnce(p: Platform, nodes: seq<Node>, edges: seq<Edge>, policy: Policy, focusId: Option<string>)
    ensures Declared(DotOf(p, nodes, edges, policy, focusId)) == multiset(nodes)
  {
    var sorted := SortedNodes(nodes);
    if policy.clusterNodes {
      var names := SortedNames(Clusters(sorted));
      InClustersIsClustered(sorted, names);
      assert (set x | x in names) == Clusters(sorted);
      ClusteredOrPlain(sorted, Clusters(sorted));
    } else {
      UnclusteredIsAll(sorted);
    }
  }

  // ----- The text does not depend on the listing order -----

  lemma SortedNodesIgnoreOrder(nodes: seq<Node>, nodes': seq<Node>)
    requires multiset(nodes) == multiset(nodes') && Distinct(NodeIds(nodes))
    ensures SortedNodes(nodes) == SortedNodes(nodes')
  {
    NodeLeqIsTotal();
    forall a, b | a in nodes && b in nodes && Tied(NodeLeq, a, b) ensures a == b {
      LessTrichotomy(a.id, b.id);
      var i :| 0 <= i < |nodes| && nodes[i] == a;
      var j :| 0 <= j < |nodes| && nodes[j] == b;
      assert NodeIds(nodes)[i] == NodeIds(nodes)[j];
    }
    SortPermutation(NodeLeq, nodes, nodes');
  }

  lemma SortedEdgesIgnoreOrder(edges: seq<Edge>, edges': seq<Edge>)
    requires multiset(edges) == multiset(edges') && Distinct(EdgeIds(edges))
    ensures SortedEdges(edges) == SortedEdges(edges')
  {
    EdgeLeqIsTotal();
    forall a, b | a in edges && b in edges && Tied(EdgeLeq, a, b) ensures a == b {
      LessTrichotomy(a.source, b.source);
      LessTrichotomy(a.target, b.target);
      LessTrichotomy(a.id, b.id);
      assert a.id == b.id;
      var i :| 0 <= i < |edges| && edges[i] == a;
      var j :| 0 <= j < |edges| && edges[j] == b;
      assert EdgeIds(edges)[i] == EdgeIds(edges)[j];
    }
    SortPermutation(EdgeLeq, edges, edges');
  }

  lemma {:induction false} KindOfMember(nodes: seq<Node>, n: Node)
    requires n in nodes && Distinct(NodeIds(nodes))
    ensures KindOf(nodes, n.id) == n.kind
  {
    var init, last := nodes[..|nodes| - 1], nodes[|nodes| - 1];
    var i :| 0 <= i < |nodes| && nodes[i] == n;
    assert NodeIds(nodes)[i] == n.id && NodeIds(nodes)[|nodes| - 1] == last.id;
    if last.id != n.id {
      assert init[i] == n;
      assert forall k :: 0 <= k < |init| ==> NodeIds(init)[k] == NodeIds(nodes)[k];
      KindOfMember(init, n);
    }
  }

  lemma KindsIgnoreOrder(nodes: seq<Node>, nodes': seq<Node>, id: string)
    requires multiset(nodes) == multiset(nodes') && Distinct(NodeIds(nodes)) && id in IdSet(nodes)
    ensures KindOf(nodes, id) == KindOf(nodes', id)
  {
    PermutedIds(nodes, nodes');
    CardinalityTellsDistinct(NodeIds(nodes));
    CardinalityTellsDistinct(NodeIds(nodes'));
    var i :| 0 <= i < |nodes| && nodes[i].id == id;
    assert nodes[i] in nodes;
    KindOfMember(nodes, nodes[i]);
    KindOfMember(nodes', nodes[i]);
  }

  lemma RankGroupsIgnoreOrder(p: Platform, nodes: seq<Node>, edges: seq<Edge>, nodes': seq<Node>, edges': seq<Edge>)
    requires ValidGraph(nodes, edges)
    requires multiset(nodes) == multiset(nodes') && multiset(edges) == multiset(edges')
    ensures RankGroups(p, nodes, edges) == RankGroups(p, nodes', edges')
  {
    PermutedEdges(edges, edges');
    forall e | e in edges
      ensures Forward(p, nodes, e) == Forward(p, nodes', e) && Backward(p, nodes, e) == Backward(p, nodes', e)
    {
      KindsIgnoreOrder(nodes, nodes', e.source);
      KindsIgnoreOrder(nodes, nodes', e.target);
    }
  }

  lemma DotIgnoresOrder(p: Platform, nodes: seq<Node>, edges: seq<Edge>, nodes': seq<Node>, edges': seq<Edge>,
                        policy: Policy, focusId: Option<string>)
    requires ValidGraph(nodes, edges)
    requires multiset(nodes) == multiset(nodes') && multiset(edges) == multiset(edges')
    ensures DotOf(p, nodes, edges, policy, focusId) == DotOf(p, nodes', edges', policy, focusId)
  {
    SortedNodesIgnoreOrder(nodes, nodes');
    SortedEdgesIgnoreOrder(edges, edges');
    RankGroupsIgnoreOrder(p, nodes, edges, nodes', edges');
  }

  // ----- The serialiser -----

  function ClusteredIds(nodes: seq<Node>): set<string> {
    set n | n in nodes && InCluster(n) :: n.id
  }

  lemma GroupsAppend(nodes: seq<Node>, n: Node, name: string)
    ensures MembersOf(nodes + [n], name) ==
            MembersOf(nodes, name) + if InCluster(n) && n.cluster.value == name then [n] else []
    ensures Clusters(nodes + [n]) == Clusters(nodes) + if InCluster(n) then {n.cluster.value} else {}
    ensures ClusteredIds(nodes + [n]) == ClusteredIds(nodes) + if InCluster(n) then {n.id} else {}
  {
    assert (nodes + [n])[..|nodes + [n]| - 1] == nodes;
    assert forall m :: m in nodes + [n] <==> m in nodes || m == n;
  }

  lemma {:induction false} NoMembers(nodes: seq<Node>, name: string)
    requires name !in Clusters(nodes)
    ensures MembersOf(nodes, name) == []
  {
    if nodes != [] {
      var init, last := nodes[..|nodes| - 1], nodes[|nodes| - 1];
      assert nodes == init + [last];
      GroupsAppend(init, last, name);
      NoMembers(init, name);
    }
  }

  ghost predicate Grouped(nodes: seq<Node>, clusters: map<string, seq<Node>>, ids: set<string>) {
    && clusters.Keys == Clusters(nodes) && ids == ClusteredIds(nodes)
    && forall name :: name in clusters ==> clusters[name] == MembersOf(nodes, name)
  }

  /** Adding a node to its cluster, a new one if need be, keeps the groups right. */
  lemma GroupedNext(sorted: seq<Node>, i: nat, clusters: map<string, seq<Node>>, ids: set<string>)
    requires i < |sorted| && Grouped(sorted[..i], clusters, ids)
    ensures var n := sorted[i];
            if InCluster(n) then
              var name := n.cluster.value;
              var members := if name in clusters then clusters[name] else [];
              Grouped(sorted[..i + 1], clusters[name := members + [n]], ids + {n.id})
            else Grouped(sorted[..i + 1], clusters, ids)
  {
    hide MembersOf, Clusters, ClusteredIds;
    var n := sorted[i];
    assert sorted[..i + 1] == sorted[..i] + [n];
    forall name ensures MembersOf(sorted[..i + 1], name) ==
                        MembersOf(sorted[..i], name) + if InCluster(n) && n.cluster.value == name then [n] else [] {
      GroupsAppend(sorted[..i], n, name);
    }
    GroupsAppend(sorted[..i], n, "");
    if InCluster(n) && n.cluster.value !in clusters {
      NoMembers(sorted[..i], n.cluster.value);
    }
  }

  method GroupByCluster(sorted: seq<Node>) returns (clusters: map<string, seq<Node>>, clusteredIds: set<string>)
    ensures clusters.Keys == Clusters(sorted) && clusteredIds == ClusteredIds(sorted)
    ensures forall name :: name in clusters ==> clusters[name] == MembersOf(sorted, name)
  {
    clusters, clusteredIds := map[], {};
    for i := 0 to |sorted|
      invariant Grouped(sorted[..i], clusters, clusteredIds)
    {
      var n := sorted[i];
      GroupedNext(sorted, i, clusters, clusteredIds);
      if InCluster(n) {
        var name := n.cluster.value;
        if name !in clusters {
          clusters := clusters[name := []];
        }
        clusters := clusters[name := clusters[name] + [n]];
        clusteredIds := clusteredIds + {n.id};
      }
    }
    assert sorted[..|sorted|] == sorted;
  }

  method WriteNodes(p: Platform, nodes: seq<Node>, indent: string) returns (text: string)
    ensures text == NodesText(p, nodes, indent)
  {
    text := "";
    for i := 0 to |nodes|
      invariant text == NodesText(p, nodes[..i], indent)
    {
      assert nodes[..i + 1][..i] == nodes[..i];
      text := text + indent + NodeStatement(p, nodes[i]) + "\n";
    }
    assert nodes[..|nodes|] == nodes;
  }

  method WriteClusters(p: Platform, clusters: map<string, seq<Node>>, ghost nodes: seq<Node>, names: seq<string>) returns (text: string)
    requires forall name :: name in names ==> name in clusters && clusters[name] == MembersOf(nodes, name)
    ensures text == ClustersText(p, ClustersOf(nodes, names))
  {
    text := "";
    for i := 0 to |names|
      invariant text == ClustersText(p, ClustersOf(nodes, names[..i]))
    {
      assert ClustersOf(nodes, names[..i + 1])[..i] == ClustersOf(nodes, names[..i]);
      assert names[i] in names;
      var members := WriteNodes(p, clusters[names[i]], "    ");
      text := text + "  subgraph " + p.quote("cluster_" + names[i]) + " {\n" + members + "  }\n";
    }
    assert names[..|names|] == names;
  }

  method SkipClustered(sorted: seq<Node>, clusteredIds: set<string>, ghost clustering: bool) returns (plain: seq<Node>)
    requires forall n :: n in sorted ==> (n.id in clusteredIds <==> clustering && InCluster(n))
    ensures plain == Unclustered(sorted, clustering)
  {
    plain := [];
    for i := 0 to |sorted|
      invariant plain == Unclustered(sorted[..i], clustering)
    {
      assert sorted[i] in sorted && sorted[..i + 1][..i] == sorted[..i];
      if sorted[i].id !in clusteredIds {
        plain := plain + [sorted[i]];
      }
    }
    assert sorted[..|sorted|] == sorted;
  }

  method WriteLinks(p: Platform, sorted: seq<Edge>, policy: Policy) returns (text: string)
    ensures text == LinksText(p, Links(sorted, policy))
  {
    text := "";
    for i := 0 to |sorted|
      invariant text == LinksText(p, Links(sorted[..i], policy))
    {
      var e := sorted[i];
      assert Links(sorted[..i + 1], policy)[..i] == Links(sorted[..i], policy);
      var attrs := [("id", e.id), ("label", "")];
      if e.kind in policy.nonconstrainingEdgeKinds {
        attrs := [("constraint", "false")] + attrs;
      }
      text := text + "  " + p.quote(e.source) + " -> " + p.quote(e.target) + " [" + AttrsText(p, attrs) + "];\n";
    }
    assert sorted[..|sorted|] == sorted;
  }

  method WriteRanks(p: Platform, pairs: seq<(string, string)>) returns (text: string)
    ensures text == RanksText(p, pairs)
  {
    text := "";
    for i := 0 to |pairs|
      invariant text == RanksText(p, pairs[..i])
    {
      assert pairs[..i + 1][..i] == pairs[..i];
      text := text + "  { rank=same; " + p.quote(pairs[i].0) + "; " + p.quote(pairs[i].1) + "; }\n";
    }
    assert pairs[..|pairs|] == pairs;
  }

  method KindsOf(p: Platform, nodes: seq<Node>) returns (kinds: map<string, string>)
    ensures kinds.Keys == IdSet(nodes)
    ensures forall id :: id in kinds ==> kinds[id] == p.lower(KindOf(nodes, id))
  {
    kinds := map[];
    for i := 0 to |nodes|
      invariant kinds.Keys == set k | k in NodeIds(nodes[..i])
      invariant forall id :: id in kinds ==> kinds[id] == p.lower(KindOf(nodes[..i], id))
    {
      assert nodes[..i + 1][..i] == nodes[..i];
      assert NodeIds(nodes[..i + 1]) == NodeIds(nodes[..i]) + [nodes[i].id];
      kinds := kinds[nodes[i].id := p.lower(nodes[i].kind)];
    }
    assert nodes[..|nodes|] == nodes;
  }

  method VerificationRankGroups(p: Platform, nodes: seq<Node>, edges: seq<Edge>) returns (pairs: seq<(string, string)>)
    requires KnownEndpoints(nodes, edges)
    ensures pairs == SortedPairs(RankGroups(p, nodes, edges))
  {
    hide RankGroups, KindOf;
    var kinds := KindsOf(p, nodes);
    NoRankGroups(p, nodes);
    assert edges[..0] == [];
    var groups: set<(string, string)> := {};
    for i := 0 to |edges|
      invariant groups == RankGroups(p, nodes, edges[..i])
    {
      var e := edges[i];
      assert e in edges && edges[..i + 1] == edges[..i] + [e];
      RankGroupsAppend(p, nodes, edges[..i], e);
      if e.kind == "verifies" {
        var leftKind, rightKind := kinds[e.source], kinds[e.target];
        if leftKind in WORK_KINDS && rightKind in VERIFY_KINDS {
          groups := groups + {(e.source, e.target)};
        } else if rightKind in WORK_KINDS && leftKind in VERIFY_KINDS {
          groups := groups + {(e.target, e.source)};
        }
      }
    }
    assert edges[..|edges|] == edges;
    pairs := SortedPairs(groups);
  }

  lemma NoRankGroups(p: Platform, nodes: seq<Node>)
    ensures RankGroups(p, nodes, []) == {}
  {
  }

  lemma RankGroupsAppend(p: Platform, nodes: seq<Node>, edges: seq<Edge>, e: Edge)
    ensures RankGroups(p, nodes, edges + [e]) == RankGroups(p, nodes, edges)
      + (if Forward(p, nodes, e) then {(e.source, e.target)} else {})
      + (if Backward(p, nodes, e) then {(e.target, e.source)} else {})
  {
    assert forall f :: f in edges + [e] <==> f in edges || f == e;
  }

  method CanonicalDot(p: Platform, nodes: seq<Node>, edges: seq<Edge>, policy: Policy, focusId: Option<string>) returns (dot: string)
    requires ValidGraph(nodes, edges)
    ensures dot == Text(p, DotOf(p, nodes, edges, policy, focusId))
  {
    dot := "strict digraph theorem_layout {\n";
    var attrs := SortedAttrs(policy, focusId);
    if attrs != [] {
      dot := dot + ("  graph [" + AttrsText(p, attrs) + "];\n");
    } else {
      assert dot == dot + "";
    }
    var sorted := SortedNodes(nodes);
    var clusterText, clusteredIds := "", {};
    if policy.clusterNodes {
      var clusters;
      clusters, clusteredIds := GroupByCluster(sorted);
      clusterText := WriteClusters(p, clusters, sorted, SortedNames(clusters.Keys));
    }
    forall n | n in sorted ensures n.id in clusteredIds <==> policy.clusterNodes && InCluster(n) {
      IdsIdentify(nodes, sorted, n, clusteredIds, policy.clusterNodes);
    }
    var plain := SkipClustered(sorted, clusteredIds, policy.clusterNodes);
    var nodesText := WriteNodes(p, plain, "  ");
    var linksText := WriteLinks(p, SortedEdges(edges), policy);
    var pairs: seq<(string, string)> := [];
    if policy.verifySiblingRanks {
      pairs := VerificationRankGroups(p, nodes, edges);
    }
    var ranksText := WriteRanks(p, pairs);
    dot := dot + clusterText + nodesText + linksText + ranksText + "}\n";
  }

  /** With distinct ids, the set of clustered ids names exactly the clustered nodes. */
  lemma IdsIdentify(nodes: seq<Node>, sorted: seq<Node>, n: Node, clusteredIds: set<string>, clustering: bool)
    requires Distinct(NodeIds(nodes)) && multiset(sorted) == multiset(nodes) && n in sorted
    requires clusteredIds == if clustering then ClusteredIds(sorted) else {}
    ensures n.id in clusteredIds <==> clustering && InCluster(n)
  {
    if clustering && n.id in clusteredIds {
      var m :| m in sorted && InCluster(m) && m.id == n.id;
      assert m in multiset(nodes) && n in multiset(nodes);
      var i :| 0 <= i < |nodes| && nodes[i] == m;
      var j :| 0 <= j < |nodes| && nodes[j] == n;
      assert NodeIds(nodes)[i] == NodeIds(nodes)[j];
    }
  }

  // ----- The cache key -----

  /** Everything hashed into the cache key. */
  datatype DigestInput = DigestInput(
    dot: string, engine: string, graphClass: GraphClass, graphAttrs: map<string, string>, focusId: Option<string>, version: string)

  ghost function KeyOf(p: Platform, requested: Option<GraphClass>, nodes: seq<Node>, edges: seq<Edge>,
                       focusId: Option<string>, version: string): Result<DigestInput, FocusError>
    requires nodes != []
  {
    match Resolve(requested, nodes, edges, focusId)
    case Err(e) => Err(e)
    case Ok(r) =>
      Ok(DigestInput(Text(p, DotOf(p, nodes, edges, r.policy, r.focusId)), r.policy.EngineFor(|nodes|),
                     r.graphClass, r.policy.graphAttrs, r.focusId, version))
  }

  /** Listing a valid graph differently reaches the same class, engine, focus, DOT text and digest input. */
  lemma CacheKeyIgnoresOrder(p: Platform, requested: Option<GraphClass>, nodes: seq<Node>, edges: seq<Edge>,
                             nodes': seq<Node>, edges': seq<Edge>, focusId: Option<string>, version: string)
    requires ValidGraph(nodes, edges)
    requires multiset(nodes) == multiset(nodes') && multiset(edges) == multiset(edges')
    ensures nodes' != [] && KeyOf(p, requested, nodes, edges, focusId, version) == KeyOf(p, requested, nodes', edges', focusId, version)
  {
    ResolutionIgnoresOrder(requested, nodes, edges, focusId, nodes', edges');
    PermutedIds(nodes, nodes');
    var r := Resolve(requested, nodes, edges, focusId);
    if r.Ok? {
      DotIgnoresOrder(p, nodes, edges, nodes', edges', r.value.policy, r.value.focusId);
    }
  }
}
