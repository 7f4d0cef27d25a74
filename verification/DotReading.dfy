// What the serialised DOT says, read from its text: the statements it consists of, one after
// another, and the nodes, edges and attributes each of them names.

module DotReading {
  import opened Common
  import opened Ordering
  import opened LayoutGraph
  import opened LayoutPolicy
  import opened CanonicalDot

  // ----- A text cut into lines -----

  ghost predicate Sits(text: string, line: string, from: nat, to: nat) {
    from <= to <= |text| && text[from..to] == line
  }

  /** The lines follow one another without gap from the start of the text to its end. */
  ghost predicate Cut(text: string, lines: seq<string>, at: seq<nat>) {
    && |at| == |lines| + 1 && at[0] == 0 && at[|lines|] == |text|
    && forall i :: 0 <= i < |lines| ==> Sits(text, lines[i], at[i], at[i + 1])
  }

  ghost predicate Tiled(text: string, lines: seq<string>) {
    exists at: seq<nat> :: Cut(text, lines, at)
  }

  lemma TiledNone()
    ensures Tiled("", [])
  {
    assert Cut("", [], [0]);
  }

  lemma TiledAppend(text: string, lines: seq<string>, line: string)
    requires Tiled(text, lines)
    ensures Tiled(text + line, lines + [line])
  {
    var at: seq<nat> :| Cut(text, lines, at);
    var next := at + [|text + line|];
    forall i | 0 <= i < |lines + [line]| ensures Sits(text + line, (lines + [line])[i], next[i], next[i + 1]) {
      if i < |lines| {
        assert Sits(text, lines[i], at[i], at[i + 1]);
        assert (text + line)[at[i]..at[i + 1]] == text[at[i]..at[i + 1]];
      } else {
        assert (text + line)[|text|..] == line;
      }
    }
    assert Cut(text + line, lines + [line], next);
  }

  /** The part stands in the text somewhere. */
  ghost predicate Within(text: string, part: string) {
    exists before: string, after: string :: text == before + part + after
  }

  lemma TiledWithin(text: string, lines: seq<string>, i: nat)
    requires Tiled(text, lines) && i < |lines|
    ensures Within(text, lines[i])
  {
    var at: seq<nat> :| Cut(text, lines, at);
    var from, to := at[i], at[i + 1];
    assert Sits(text, lines[i], from, to);
    assert text == text[..from] + text[from..to] + text[to..];
  }

  /** Appending piece by piece appends the whole line. */
  lemma Glue(text: string, a: string, b: string, c: string, d: string, e: string, f: string, g: string)
    ensures text + a + b + c + d + e + f + g == text + (a + b + c + d + e + f + g)
  {
    Assoc(text, a, b);
    Assoc(text, a + b, c);
    Assoc(text, a + b + c, d);
    Assoc(text, a + b + c + d, e);
    Assoc(text, a + b + c + d + e, f);
    Assoc(text, a + b + c + d + e + f, g);
  }

  lemma Assoc(a: string, b: string, c: string)
    ensures a + b + c == a + (b + c)
  {
  }

  // ----- Edge statements -----

  /** One statement for every edge, in the order of source, target and id, each naming its edge the
      right way round, and free of the ranking exactly if the edge's kind does not constrain it. */
  ghost predicate EdgesReadAs(p: Platform, edges: seq<Edge>, policy: Policy, text: string, es: seq<Edge>, lines: seq<string>) {
    && multiset(es) == multiset(edges) && |lines| == |es| && Tiled(text, lines)
    && (forall i, j :: 0 <= i < j < |es| ==>
          Less(es[i].source, es[j].source)
          || (es[i].source == es[j].source
              && (Less(es[i].target, es[j].target) || (es[i].target == es[j].target && Leq(es[i].id, es[j].id)))))
    && forall i :: 0 <= i < |es| ==>
         lines[i] == "  " + p.quote(es[i].source) + " -> " + p.quote(es[i].target) + " ["
                     + (if es[i].kind in policy.nonconstrainingEdgeKinds then "constraint=" + p.quote("false") + ", " else "")
                     + "id=" + p.quote(es[i].id) + ", label=" + p.quote("") + "];\n"
  }

  ghost predicate EdgesRead(p: Platform, edges: seq<Edge>, policy: Policy, text: string) {
    exists es: seq<Edge>, lines: seq<string> :: EdgesReadAs(p, edges, policy, text, es, lines)
  }

  ghost function LinkLine(p: Platform, e: Edge, apart: bool): string {
    "  " + p.quote(e.source) + " -> " + p.quote(e.target) + " ["
    + (if apart then "constraint=" + p.quote("false") + ", " else "")
    + "id=" + p.quote(e.id) + ", label=" + p.quote("") + "];\n"
  }

  ghost function LinkLines(p: Platform, links: seq<Link>): (r: seq<string>)
    ensures |r| == |links|
  {
    seq(|links|, i requires 0 <= i < |links| => LinkLine(p, links[i].edge, links[i].nonconstraining))
  }

  lemma AttrsOfOne(p: Platform, a: (string, string))
    ensures AttrsText(p, [a]) == a.0 + "=" + p.quote(a.1)
  {
    assert AttrsText(p, [a][..0]) == "";
  }

  lemma AttrsOfMore(p: Platform, attrs: seq<(string, string)>, a: (string, string))
    requires attrs != []
    ensures AttrsText(p, attrs + [a]) == AttrsText(p, attrs) + ", " + a.0 + "=" + p.quote(a.1)
  {
    assert (attrs + [a])[..|attrs|] == attrs;
  }

  lemma LinkAttrs(p: Platform, id: string)
    ensures AttrsText(p, [("id", id), ("label", "")]) == "id=" + p.quote(id) + ", label=" + p.quote("")
    ensures AttrsText(p, [("constraint", "false")] + [("id", id), ("label", "")])
         == "constraint=" + p.quote("false") + ", " + "id=" + p.quote(id) + ", label=" + p.quote("")
  {
    hide AttrsText;
    var c, a, l := ("constraint", "false"), ("id", id), ("label", "");
    AttrsOfOne(p, a);
    AttrsOfMore(p, [a], l);
    AttrsOfOne(p, c);
    AttrsOfMore(p, [c], a);
    AttrsOfMore(p, [c] + [a], l);
    assert [a] + [l] == [a, l] && [c] + [a] + [l] == [c] + [a, l];
    assert "id" + "=" == "id=" && ", " + "label" + "=" == ", label=" && "constraint" + "=" == "constraint=";
  }

  lemma {:induction false} LinksTile(p: Platform, links: seq<Link>)
    ensures Tiled(LinksText(p, links), LinkLines(p, links))
  {
    hide Tiled, LinkLine;
    if links == [] {
      TiledNone();
      assert LinkLines(p, links) == [];
    } else {
      var init, last := links[..|links| - 1], links[|links| - 1];
      LinksTile(p, init);
      var line := LinkLine(p, last.edge, last.nonconstraining);
      TiledAppend(LinksText(p, init), LinkLines(p, init), line);
      assert LinkLines(p, links) == LinkLines(p, init) + [line];
      LinksStep(p, links);
    }
  }

  lemma LinksStep(p: Platform, links: seq<Link>)
    requires links != []
    ensures var last := links[|links| - 1];
            LinksText(p, links) == LinksText(p, links[..|links| - 1]) + LinkLine(p, last.edge, last.nonconstraining)
  {
    hide AttrsText, LinkLine;
    var before, last := LinksText(p, links[..|links| - 1]), links[|links| - 1];
    var attrs := [("id", last.edge.id), ("label", "")];
    var text := AttrsText(p, if last.nonconstraining then [("constraint", "false")] + attrs else attrs);
    LinkLineIs(p, last.edge, last.nonconstraining);
    Glue(before, "  ", p.quote(last.edge.source), " -> ", p.quote(last.edge.target), " [", text, "];\n");
  }

  lemma LinkLineIs(p: Platform, e: Edge, apart: bool)
    ensures var attrs := [("id", e.id), ("label", "")];
            var text := AttrsText(p, if apart then [("constraint", "false")] + attrs else attrs);
            LinkLine(p, e, apart) == "  " + p.quote(e.source) + " -> " + p.quote(e.target) + " [" + text + "];\n"
  {
    hide AttrsText, LinkLine;
    LinkAttrs(p, e.id);
    var first := if apart then "constraint=" + p.quote("false") + ", " else "";
    var text := first + "id=" + p.quote(e.id) + ", label=" + p.quote("");
    if !apart { assert "" + "id=" == "id="; }
    LineOf(p, e, apart, first, text);
  }

  lemma LineOf(p: Platform, e: Edge, apart: bool, first: string, attrs: string)
    requires first == if apart then "constraint=" + p.quote("false") + ", " else ""
    requires attrs == first + "id=" + p.quote(e.id) + ", label=" + p.quote("")
    ensures LinkLine(p, e, apart) == "  " + p.quote(e.source) + " -> " + p.quote(e.target) + " [" + attrs + "];\n"
  {
    var head := "  " + p.quote(e.source) + " -> " + p.quote(e.target) + " [";
    Glue(head, first, "id=", p.quote(e.id), ", label=", p.quote(""), "", "");
  }

  lemma EdgesAreRead(p: Platform, edges: seq<Edge>, policy: Policy)
    ensures EdgesRead(p, edges, policy, LinksText(p, Links(SortedEdges(edges), policy)))
  {
    var es := SortedEdges(edges);
    var links := Links(es, policy);
    var lines := LinkLines(p, links);
    LinksTile(p, links);
    EdgeLeqIsTotal();
    assert SortedBy(EdgeLeq, es);
    forall i, j | 0 <= i < j < |es|
      ensures Less(es[i].source, es[j].source)
              || (es[i].source == es[j].source
                  && (Less(es[i].target, es[j].target) || (es[i].target == es[j].target && Leq(es[i].id, es[j].id))))
    {
      assert EdgeLeq(es[i], es[j]);
    }
    assert EdgesReadAs(p, edges, policy, LinksText(p, links), es, lines);
  }

  // ----- Node statements -----

  ghost predicate NodesReadAs(p: Platform, ns: seq<Node>, indent: string, text: string, lines: seq<string>) {
    && |lines| == |ns| && Tiled(text, lines)
    && forall i :: 0 <= i < |ns| ==>
         lines[i] == indent + p.quote(ns[i].id) + " [fixedsize=true, height=" + p.quote(p.number(ns[i].hPx / 72.0))
                     + ", label=" + p.quote("") + ", shape=box, width=" + p.quote(p.number(ns[i].wPx / 72.0)) + "];\n"
  }

  /** One statement for each of the nodes, in their order. */
  ghost predicate NodesRead(p: Platform, ns: seq<Node>, indent: string, text: string) {
    exists lines: seq<string> :: NodesReadAs(p, ns, indent, text, lines)
  }

  ghost predicate IdsAscend(ns: seq<Node>) {
    forall i, j :: 0 <= i < j < |ns| ==> Less(ns[i].id, ns[j].id)
  }

  ghost function NodeLine(p: Platform, n: Node, indent: string): string {
    indent + p.quote(n.id) + " [fixedsize=true, height=" + p.quote(p.number(n.hPx / 72.0))
    + ", label=" + p.quote("") + ", shape=box, width=" + p.quote(p.number(n.wPx / 72.0)) + "];\n"
  }

  ghost function NodeLines(p: Platform, ns: seq<Node>, indent: string): (r: seq<string>)
    ensures |r| == |ns|
  {
    seq(|ns|, i requires 0 <= i < |ns| => NodeLine(p, ns[i], indent))
  }

  lemma {:induction false} NodesTile(p: Platform, ns: seq<Node>, indent: string)
    ensures Tiled(NodesText(p, ns, indent), NodeLines(p, ns, indent))
  {
    hide Tiled, NodeLine;
    if ns == [] {
      TiledNone();
      assert NodeLines(p, ns, indent) == [];
    } else {
      var init, last := ns[..|ns| - 1], ns[|ns| - 1];
      NodesTile(p, init, indent);
      var line := NodeLine(p, last, indent);
      TiledAppend(NodesText(p, init, indent), NodeLines(p, init, indent), line);
      assert NodeLines(p, ns, indent) == NodeLines(p, init, indent) + [line];
      NodesStep(p, ns, indent);
    }
  }

  lemma NodesStep(p: Platform, ns: seq<Node>, indent: string)
    requires ns != []
    ensures NodesText(p, ns, indent) == NodesText(p, ns[..|ns| - 1], indent) + NodeLine(p, ns[|ns| - 1], indent)
  {
    hide NodeStatement, NodeLine;
    var before, n := NodesText(p, ns[..|ns| - 1], indent), ns[|ns| - 1];
    NodeLineIs(p, n, indent);
    Assoc(before, indent, NodeStatement(p, n));
    Assoc(before, indent + NodeStatement(p, n), "\n");
  }

  lemma NodeLineIs(p: Platform, n: Node, indent: string)
    ensures NodeLine(p, n, indent) == indent + NodeStatement(p, n) + "\n"
  {
    NodeLineOf(indent, p.quote(n.id), p.quote(p.number(n.hPx / 72.0)), p.quote(""), p.quote(p.number(n.wPx / 72.0)));
  }

  lemma NodeLineOf(indent: string, id: string, height: string, caption: string, width: string)
    ensures indent + (id + " [fixedsize=true, height=" + height + ", label=" + caption + ", shape=box, width=" + width + "];") + "\n"
         == indent + id + " [fixedsize=true, height=" + height + ", label=" + caption + ", shape=box, width=" + width + "];\n"
  {
    var rest := ", shape=box, width=";
    Glue(indent, id, " [fixedsize=true, height=", height, ", label=", caption, rest, width);
    var line := id + " [fixedsize=true, height=" + height + ", label=" + caption + rest + width;
    Assoc(indent, line, "];");
    Assoc(indent + line, "];", "\n");
    assert "];" + "\n" == "];\n";
  }

  lemma NodesAreRead(p: Platform, ns: seq<Node>, indent: string)
    ensures NodesRead(p, ns, indent, NodesText(p, ns, indent))
  {
    hide Tiled, NodesText;
    NodesTile(p, ns, indent);
    assert NodesReadAs(p, ns, indent, NodesText(p, ns, indent), NodeLines(p, ns, indent));
  }

  lemma SortedAscend(nodes: seq<Node>)
    requires Distinct(NodeIds(nodes))
    ensures IdsAscend(SortedNodes(nodes)) && forall n :: n in SortedNodes(nodes) <==> n in nodes
  {
    var sorted := SortedNodes(nodes);
    PermutedIds(nodes, sorted);
    CardinalityTellsDistinct(NodeIds(nodes));
    CardinalityTellsDistinct(NodeIds(sorted));
    NodeLeqIsTotal();
    assert SortedBy(NodeLeq, sorted);
    forall i, j | 0 <= i < j < |sorted| ensures Less(sorted[i].id, sorted[j].id) {
      assert NodeLeq(sorted[i], sorted[j]);
      assert NodeIds(sorted)[i] != NodeIds(sorted)[j];
    }
  }

  lemma {:induction false} MembersAscend(nodes: seq<Node>, name: string)
    requires IdsAscend(nodes)
    ensures IdsAscend(MembersOf(nodes, name))
    ensures forall n :: n in MembersOf(nodes, name) <==> n in nodes && n.cluster == Some(name) && name != ""
  {
    if nodes != [] {
      var init, last := nodes[..|nodes| - 1], nodes[|nodes| - 1];
      assert nodes == init + [last];
      MembersAscend(init, name);
      AscendAppend(init, MembersOf(init, name), last);
    }
  }

  lemma {:induction false} PlainAscend(nodes: seq<Node>, clustering: bool)
    requires IdsAscend(nodes)
    ensures IdsAscend(Unclustered(nodes, clustering))
    ensures forall n :: n in Unclustered(nodes, clustering) <==>
              n in nodes && !(clustering && n.cluster.Some? && n.cluster.value != "")
  {
    if nodes != [] {
      var init, last := nodes[..|nodes| - 1], nodes[|nodes| - 1];
      assert nodes == init + [last];
      PlainAscend(init, clustering);
      AscendAppend(init, Unclustered(init, clustering), last);
    }
  }

  lemma AscendAppend(init: seq<Node>, part: seq<Node>, last: Node)
    requires IdsAscend(init + [last]) && IdsAscend(part) && forall n :: n in part ==> n in init
    ensures IdsAscend(part + [last])
  {
    forall i | 0 <= i < |part| ensures Less(part[i].id, last.id) {
      assert part[i] in part;
      var k :| 0 <= k < |init| && init[k] == part[i];
      assert Less((init + [last])[k].id, (init + [last])[|init|].id);
    }
  }

  /** The nodes outside every cluster, by ascending id: all nodes if the policy does not cluster. */
  ghost predicate PlainReadAs(p: Platform, nodes: seq<Node>, policy: Policy, text: string, ns: seq<Node>) {
    && IdsAscend(ns) && NodesRead(p, ns, "  ", text)
    && forall n :: n in ns <==> n in nodes && !(policy.clusterNodes && n.cluster.Some? && n.cluster.value != "")
  }

  ghost predicate PlainRead(p: Platform, nodes: seq<Node>, policy: Policy, text: string) {
    exists ns: seq<Node> :: PlainReadAs(p, nodes, policy, text, ns)
  }

  lemma PlainIsRead(p: Platform, nodes: seq<Node>, policy: Policy)
    requires Distinct(NodeIds(nodes))
    ensures PlainRead(p, nodes, policy, NodesText(p, Unclustered(SortedNodes(nodes), policy.clusterNodes), "  "))
  {
    var sorted := SortedNodes(nodes);
    var ns := Unclustered(sorted, policy.clusterNodes);
    SortedAscend(nodes);
    PlainAscend(sorted, policy.clusterNodes);
    NodesAreRead(p, ns, "  ");
    assert PlainReadAs(p, nodes, policy, NodesText(p, ns, "  "), ns);
  }

  // ----- Clusters -----

  /** The cluster of this name: its nodes, by ascending id, between the braces. */
  ghost predicate ClusterReadAs(p: Platform, nodes: seq<Node>, name: string, block: string, members: seq<Node>, body: string) {
    && block == "  subgraph " + p.quote("cluster_" + name) + " {\n" + body + "  }\n"
    && IdsAscend(members) && NodesRead(p, members, "    ", body)
    && forall n :: n in members <==> n in nodes && n.cluster == Some(name)
  }

  ghost predicate ClusterRead(p: Platform, nodes: seq<Node>, name: string, block: string) {
    exists members: seq<Node>, body: string :: ClusterReadAs(p, nodes, name, block, members, body)
  }

  /** If the policy clusters, one block for each non-empty cluster name in use, by ascending name. */
  ghost predicate ClustersReadAs(p: Platform, nodes: seq<Node>, policy: Policy, text: string, names: seq<string>, blocks: seq<string>) {
    && |blocks| == |names| && Tiled(text, blocks)
    && (forall i, j :: 0 <= i < j < |names| ==> Less(names[i], names[j]))
    && (forall name :: name in names <==> policy.clusterNodes && name != "" && exists n :: n in nodes && n.cluster == Some(name))
    && forall i :: 0 <= i < |names| ==> ClusterRead(p, nodes, names[i], blocks[i])
  }

  ghost predicate ClustersRead(p: Platform, nodes: seq<Node>, policy: Policy, text: string) {
    exists names: seq<string>, blocks: seq<string> :: ClustersReadAs(p, nodes, policy, text, names, blocks)
  }

  ghost function Block(p: Platform, c: Cluster): string {
    "  subgraph " + p.quote("cluster_" + c.name) + " {\n" + NodesText(p, c.members, "    ") + "  }\n"
  }

  ghost function Blocks(p: Platform, clusters: seq<Cluster>): (r: seq<string>)
    ensures |r| == |clusters|
  {
    seq(|clusters|, i requires 0 <= i < |clusters| => Block(p, clusters[i]))
  }

  lemma {:induction false} ClustersTile(p: Platform, clusters: seq<Cluster>)
    ensures Tiled(ClustersText(p, clusters), Blocks(p, clusters))
  {
    hide Tiled, Block;
    if clusters == [] {
      TiledNone();
      assert Blocks(p, clusters) == [];
    } else {
      var init, last := clusters[..|clusters| - 1], clusters[|clusters| - 1];
      ClustersTile(p, init);
      TiledAppend(ClustersText(p, init), Blocks(p, init), Block(p, last));
      assert Blocks(p, clusters) == Blocks(p, init) + [Block(p, last)];
      ClustersStep(p, clusters);
    }
  }

  lemma ClustersStep(p: Platform, clusters: seq<Cluster>)
    requires clusters != []
    ensures ClustersText(p, clusters) == ClustersText(p, clusters[..|clusters| - 1]) + Block(p, clusters[|clusters| - 1])
  {
    hide NodesText;
    var last := clusters[|clusters| - 1];
    Glue(ClustersText(p, clusters[..|clusters| - 1]), "  subgraph ", p.quote("cluster_" + last.name), " {\n",
         NodesText(p, last.members, "    "), "  }\n", "", "");
  }

  lemma NamesAscend(names: set<string>)
    ensures var r := SortedNames(names); forall i, j :: 0 <= i < j < |r| ==> Less(r[i], r[j])
  {
    LeqIsTotal();
    var r := SortedNames(names);
    assert SortedBy(Leq, r);
    forall i, j | 0 <= i < j < |r| ensures Less(r[i], r[j]) {
      assert Leq(r[i], r[j]) && r[i] != r[j];
    }
  }

  lemma ClustersAreRead(p: Platform, nodes: seq<Node>, policy: Policy)
    requires Distinct(NodeIds(nodes))
    ensures var sorted := SortedNodes(nodes);
            ClustersRead(p, nodes, policy, ClustersText(p,
              if policy.clusterNodes then ClustersOf(sorted, SortedNames(Clusters(sorted))) else []))
  {
    var sorted := SortedNodes(nodes);
    var names := if policy.clusterNodes then SortedNames(Clusters(sorted)) else [];
    var clusters := ClustersOf(sorted, names);
    SortedAscend(nodes);
    NamesAscend(Clusters(sorted));
    ClustersTile(p, clusters);
    forall name
      ensures name in names <==> policy.clusterNodes && name != "" && exists n :: n in nodes && n.cluster == Some(name)
    {
      if n :| n in nodes && n.cluster == Some(name) { assert n in sorted; }
    }
    forall i | 0 <= i < |names| ensures ClusterRead(p, nodes, names[i], Blocks(p, clusters)[i]) {
      assert names[i] in names;
      var members := MembersOf(sorted, names[i]);
      MembersAscend(sorted, names[i]);
      NodesAreRead(p, members, "    ");
      assert ClusterReadAs(p, nodes, names[i], Block(p, clusters[i]), members, NodesText(p, members, "    "));
    }
    assert ClustersReadAs(p, nodes, policy, ClustersText(p, clusters), names, Blocks(p, clusters));
    assert policy.clusterNodes || clusters == [];
  }

  // ----- Rank statements -----

  /** A verifies edge joins the two nodes, one way or the other, the first being work and the second
      its verification. */
  ghost predicate RankedTogether(p: Platform, nodes: seq<Node>, edges: seq<Edge>, work: Node, check: Node) {
    && work in nodes && check in nodes
    && (p.lower(work.kind) == "work" || p.lower(work.kind) == "implementation")
    && (p.lower(check.kind) == "verify" || p.lower(check.kind) == "verification")
    && exists e :: e in edges && e.kind == "verifies"
         && ((e.source == work.id && e.target == check.id) || (e.source == check.id && e.target == work.id))
  }

  ghost predicate Ranked(p: Platform, nodes: seq<Node>, edges: seq<Edge>, a: string, b: string) {
    exists work, check :: RankedTogether(p, nodes, edges, work, check) && work.id == a && check.id == b
  }

  ghost predicate PairsAscend(pairs: seq<(string, string)>) {
    forall i, j :: 0 <= i < j < |pairs| ==>
      Less(pairs[i].0, pairs[j].0) || (pairs[i].0 == pairs[j].0 && Less(pairs[i].1, pairs[j].1))
  }

  ghost predicate ListsRanked(p: Platform, nodes: seq<Node>, edges: seq<Edge>, policy: Policy, pairs: seq<(string, string)>) {
    forall a, b :: (a, b) in pairs <==> policy.verifySiblingRanks && Ranked(p, nodes, edges, a, b)
  }

  ghost predicate RanksReadAs(p: Platform, nodes: seq<Node>, edges: seq<Edge>, policy: Policy, text: string,
                              pairs: seq<(string, string)>, lines: seq<string>) {
    && |lines| == |pairs| && Tiled(text, lines)
    && PairsAscend(pairs) && ListsRanked(p, nodes, edges, policy, pairs)
    && forall i :: 0 <= i < |pairs| ==>
         lines[i] == "  { rank=same; " + p.quote(pairs[i].0) + "; " + p.quote(pairs[i].1) + "; }\n"
  }

  ghost predicate RanksRead(p: Platform, nodes: seq<Node>, edges: seq<Edge>, policy: Policy, text: string) {
    exists pairs: seq<(string, string)>, lines: seq<string> :: RanksReadAs(p, nodes, edges, policy, text, pairs, lines)
  }

  ghost function RankLine(p: Platform, pair: (string, string)): string {
    "  { rank=same; " + p.quote(pair.0) + "; " + p.quote(pair.1) + "; }\n"
  }

  ghost function RankLines(p: Platform, pairs: seq<(string, string)>): (r: seq<string>)
    ensures |r| == |pairs|
  {
    seq(|pairs|, i requires 0 <= i < |pairs| => RankLine(p, pairs[i]))
  }

  lemma {:induction false} RanksTile(p: Platform, pairs: seq<(string, string)>)
    ensures Tiled(RanksText(p, pairs), RankLines(p, pairs))
  {
    hide Tiled, RankLine;
    if pairs == [] {
      TiledNone();
      assert RankLines(p, pairs) == [];
    } else {
      var init, last := pairs[..|pairs| - 1], pairs[|pairs| - 1];
      RanksTile(p, init);
      TiledAppend(RanksText(p, init), RankLines(p, init), RankLine(p, last));
      assert RankLines(p, pairs) == RankLines(p, init) + [RankLine(p, last)];
      RanksStep(p, pairs);
    }
  }

  lemma RanksStep(p: Platform, pairs: seq<(string, string)>)
    requires pairs != []
    ensures RanksText(p, pairs) == RanksText(p, pairs[..|pairs| - 1]) + RankLine(p, pairs[|pairs| - 1])
  {
    var last := pairs[|pairs| - 1];
    Glue(RanksText(p, pairs[..|pairs| - 1]), "  { rank=same; ", p.quote(last.0), "; ", p.quote(last.1), "; }\n", "", "");
  }

  lemma SortedPairsAscend(pairs: set<(string, string)>)
    ensures PairsAscend(SortedPairs(pairs))
  {
    PairLeqIsTotal();
    var r := SortedPairs(pairs);
    assert SortedBy(PairLeq, r);
    forall i, j | 0 <= i < j < |r| ensures Less(r[i].0, r[j].0) || (r[i].0 == r[j].0 && Less(r[i].1, r[j].1)) {
      assert PairLeq(r[i], r[j]) && r[i] != r[j];
    }
  }

  lemma NoPairsAscend()
    ensures PairsAscend([])
  {
  }

  lemma NodeOf(nodes: seq<Node>, id: string) returns (n: Node)
    requires id in IdSet(nodes) && Distinct(NodeIds(nodes))
    ensures n in nodes && n.id == id && KindOf(nodes, id) == n.kind
  {
    var i :| 0 <= i < |nodes| && NodeIds(nodes)[i] == id;
    n := nodes[i];
    KindOfMember(nodes, n);
  }

  lemma GroupsAreRanked(p: Platform, nodes: seq<Node>, edges: seq<Edge>, a: string, b: string)
    requires Distinct(NodeIds(nodes)) && KnownEndpoints(nodes, edges)
    ensures (a, b) in RankGroups(p, nodes, edges) <==> Ranked(p, nodes, edges, a, b)
  {
    hide KindOf;
    if (a, b) in RankGroups(p, nodes, edges) {
      var e :| e in edges && ((Forward(p, nodes, e) && (e.source, e.target) == (a, b))
                              || (Backward(p, nodes, e) && (e.target, e.source) == (a, b)));
      var work := NodeOf(nodes, a);
      var check := NodeOf(nodes, b);
      assert RankedTogether(p, nodes, edges, work, check);
    }
    if work, check :| RankedTogether(p, nodes, edges, work, check) && work.id == a && check.id == b {
      KindOfMember(nodes, work);
      KindOfMember(nodes, check);
    }
  }

  lemma RanksAreRead(p: Platform, nodes: seq<Node>, edges: seq<Edge>, policy: Policy)
    requires Distinct(NodeIds(nodes)) && KnownEndpoints(nodes, edges)
    ensures RanksRead(p, nodes, edges, policy,
              RanksText(p, if policy.verifySiblingRanks then SortedPairs(RankGroups(p, nodes, edges)) else []))
  {
    hide Ranked, RankGroups, RanksText, Tiled, SortedPairs, PairsAscend, RankLine;
    var pairs := if policy.verifySiblingRanks then SortedPairs(RankGroups(p, nodes, edges)) else [];
    SortedPairsAscend(RankGroups(p, nodes, edges));
    NoPairsAscend();
    forall a, b ensures (a, b) in pairs <==> policy.verifySiblingRanks && Ranked(p, nodes, edges, a, b) {
      GroupsAreRanked(p, nodes, edges, a, b);
    }
    assert ListsRanked(p, nodes, edges, policy, pairs);
    hide ListsRanked;
    PairsAreRead(p, nodes, edges, policy, pairs);
  }

  lemma PairsAreRead(p: Platform, nodes: seq<Node>, edges: seq<Edge>, policy: Policy, pairs: seq<(string, string)>)
    requires PairsAscend(pairs) && ListsRanked(p, nodes, edges, policy, pairs)
    ensures RanksRead(p, nodes, edges, policy, RanksText(p, pairs))
  {
    hide PairsAscend, ListsRanked, RanksText, Tiled;
    RanksTile(p, pairs);
    assert RanksReadAs(p, nodes, edges, policy, RanksText(p, pairs), pairs, RankLines(p, pairs));
  }

  // ----- Graph attributes -----

  ghost predicate KeysAscend(attrs: seq<(string, string)>) {
    forall i, j :: 0 <= i < j < |attrs| ==> Less(attrs[i].0, attrs[j].0)
  }

  ghost predicate ListsAttrs(policy: Policy, focusId: Option<string>, attrs: seq<(string, string)>) {
    forall k, v :: (k, v) in attrs <==>
      if focusId.Some? && k == "root" then v == focusId.value else k in policy.graphAttrs && policy.graphAttrs[k] == v
  }

  /** The policy's attributes by ascending key, the focus, if there is one, standing as the root. */
  ghost predicate GraphReadAs(p: Platform, policy: Policy, focusId: Option<string>, text: string,
                              attrs: seq<(string, string)>, body: string, parts: seq<string>) {
    && KeysAscend(attrs) && ListsAttrs(policy, focusId, attrs)
    && |parts| == |attrs| && Tiled(body, parts)
    && (forall i :: 0 <= i < |attrs| ==>
          parts[i] == (if i == 0 then "" else ", ") + attrs[i].0 + "=" + p.quote(attrs[i].1))
    && text == if attrs == [] then "" else "  graph [" + body + "];\n"
  }

  ghost predicate GraphRead(p: Platform, policy: Policy, focusId: Option<string>, text: string) {
    exists attrs: seq<(string, string)>, body: string, parts: seq<string> ::
      GraphReadAs(p, policy, focusId, text, attrs, body, parts)
  }

  ghost function AttrParts(p: Platform, attrs: seq<(string, string)>): (r: seq<string>)
    ensures |r| == |attrs|
  {
    seq(|attrs|, i requires 0 <= i < |attrs| => (if i == 0 then "" else ", ") + attrs[i].0 + "=" + p.quote(attrs[i].1))
  }

  lemma {:induction false} AttrsTile(p: Platform, attrs: seq<(string, string)>)
    ensures Tiled(AttrsText(p, attrs), AttrParts(p, attrs))
  {
    if attrs == [] {
      TiledNone();
      assert AttrParts(p, attrs) == [];
    } else {
      var init, last := attrs[..|attrs| - 1], attrs[|attrs| - 1];
      AttrsTile(p, init);
      var part := (if |attrs| == 1 then "" else ", ") + last.0 + "=" + p.quote(last.1);
      TiledAppend(AttrsText(p, init), AttrParts(p, init), part);
      assert AttrParts(p, attrs) == AttrParts(p, init) + [part];
      assert AttrsText(p, attrs) == AttrsText(p, init) + part;
    }
  }

  lemma AttrsAreListed(policy: Policy, focusId: Option<string>)
    ensures KeysAscend(SortedAttrs(policy, focusId)) && ListsAttrs(policy, focusId, SortedAttrs(policy, focusId))
  {
    var all := if focusId.Some? then policy.graphAttrs["root" := focusId.value] else policy.graphAttrs;
    var keys := SortedNames(all.Keys);
    var attrs := SortedAttrs(policy, focusId);
    NamesAscend(all.Keys);
    forall k, v
      ensures (k, v) in attrs <==>
              if focusId.Some? && k == "root" then v == focusId.value
              else k in policy.graphAttrs && policy.graphAttrs[k] == v
    {
      if k in keys {
        var i :| 0 <= i < |keys| && keys[i] == k;
        assert attrs[i] == (k, all[k]);
      }
    }
  }

  lemma GraphIsRead(p: Platform, policy: Policy, focusId: Option<string>)
    ensures var attrs := SortedAttrs(policy, focusId);
            GraphRead(p, policy, focusId, if attrs == [] then "" else "  graph [" + AttrsText(p, attrs) + "];\n")
  {
    hide AttrsText, Tiled, SortedAttrs, KeysAscend, ListsAttrs;
    var attrs := SortedAttrs(policy, focusId);
    AttrsAreListed(policy, focusId);
    AttrsTile(p, attrs);
    var text := if attrs == [] then "" else "  graph [" + AttrsText(p, attrs) + "];\n";
    assert GraphReadAs(p, policy, focusId, text, attrs, AttrsText(p, attrs), AttrParts(p, attrs));
  }

  // ----- The whole text -----

  ghost predicate Composed(dot: string, graph: string, clusters: string, plain: string, links: string, ranks: string) {
    dot == "strict digraph theorem_layout {\n" + graph + clusters + plain + links + ranks + "}\n"
  }

  /** The text is the header, the graph attributes, the clusters, the other nodes, the edges, the ranks
      and the closing brace, and says of the graph what each of those predicates spells out. */
  ghost predicate Reads(p: Platform, nodes: seq<Node>, edges: seq<Edge>, policy: Policy, focusId: Option<string>, dot: string) {
    exists graph, clusters, plain, links, ranks ::
      && Composed(dot, graph, clusters, plain, links, ranks)
      && GraphRead(p, policy, focusId, graph) && ClustersRead(p, nodes, policy, clusters)
      && PlainRead(p, nodes, policy, plain) && EdgesRead(p, edges, policy, links)
      && RanksRead(p, nodes, edges, policy, ranks)
  }

  lemma TextReads(p: Platform, nodes: seq<Node>, edges: seq<Edge>, policy: Policy, focusId: Option<string>)
    requires ValidGraph(nodes, edges)
    ensures Reads(p, nodes, edges, policy, focusId, Text(p, DotOf(p, nodes, edges, policy, focusId)))
  {
    hide GraphRead, ClustersRead, PlainRead, EdgesRead, RanksRead, Text, Composed;
    hide AttrsText, ClustersText, NodesText, LinksText, RanksText;
    hide SortedAttrs, SortedNodes, SortedEdges, SortedNames, SortedPairs, ClustersOf, Clusters, Unclustered, Links, RankGroups;
    var d := DotOf(p, nodes, edges, policy, focusId);
    GraphIsRead(p, policy, focusId);
    ClustersAreRead(p, nodes, policy);
    PlainIsRead(p, nodes, policy);
    EdgesAreRead(p, edges, policy);
    RanksAreRead(p, nodes, edges, policy);
    TextComposed(p, d);
  }

  lemma TextComposed(p: Platform, d: Dot)
    ensures Composed(Text(p, d), if d.attrs == [] then "" else "  graph [" + AttrsText(p, d.attrs) + "];\n",
                     ClustersText(p, d.clusters), NodesText(p, d.plain, "  "), LinksText(p, d.links), RanksText(p, d.ranks))
  {
    hide AttrsText, ClustersText, NodesText, LinksText, RanksText;
  }

  lemma WithinComposed(dot: string, graph: string, clusters: string, plain: string, links: string, ranks: string, part: string)
    requires Composed(dot, graph, clusters, plain, links, ranks) && Within(links, part)
    ensures Within(dot, part)
  {
    var before: string, after: string :| links == before + part + after;
    var head, tail := "strict digraph theorem_layout {\n" + graph + clusters + plain, ranks + "}\n";
    assert dot == head + links + tail;
    assert dot == (head + before) + part + (after + tail);
  }

  lemma EdgeWithin(p: Platform, edges: seq<Edge>, policy: Policy, text: string, e: Edge)
    requires EdgesRead(p, edges, policy, text) && e in edges
    ensures Within(text, LinkLine(p, e, e.kind in policy.nonconstrainingEdgeKinds))
  {
    hide Within, Tiled;
    var es: seq<Edge>, lines: seq<string> :| EdgesReadAs(p, edges, policy, text, es, lines);
    PermutedEdges(edges, es);
    var i :| 0 <= i < |es| && es[i] == e;
    TiledWithin(text, lines, i);
  }

  /** Every edge of a valid graph is stated in the text, from its source to its target, with its id,
      and outside the ranking exactly if its kind is one that does not constrain it. */
  lemma EveryEdgeIsStated(p: Platform, nodes: seq<Node>, edges: seq<Edge>, policy: Policy, focusId: Option<string>, e: Edge)
    requires ValidGraph(nodes, edges) && e in edges
    ensures Within(Text(p, DotOf(p, nodes, edges, policy, focusId)),
              "  " + p.quote(e.source) + " -> " + p.quote(e.target) + " ["
              + (if e.kind in policy.nonconstrainingEdgeKinds then "constraint=" + p.quote("false") + ", " else "")
              + "id=" + p.quote(e.id) + ", label=" + p.quote("") + "];\n")
  {
    hide Text, DotOf, Within, GraphRead, ClustersRead, PlainRead, EdgesRead, RanksRead, Composed;
    var dot := Text(p, DotOf(p, nodes, edges, policy, focusId));
    TextReads(p, nodes, edges, policy, focusId);
    var graph, clusters, plain, links, ranks :|
      Composed(dot, graph, clusters, plain, links, ranks) && EdgesRead(p, edges, policy, links);
    EdgeWithin(p, edges, policy, links, e);
    WithinComposed(dot, graph, clusters, plain, links, ranks, LinkLine(p, e, e.kind in policy.nonconstrainingEdgeKinds));
  }
}
