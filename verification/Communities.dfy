// community.assign: union-find over string edge endpoints, with path halving and
// smallest-root union, proved against undirected connectivity.

module Communities {
  import opened Common
  import opened Ordering
  import opened Graphs

  type Edge = (string, string)

  datatype Row = Row(node: string, communityId: nat)

  datatype InputError = NullEndpoint

  // ----- The specification: connectivity, leaders and ranks -----

  function Endpoints(edges: seq<Edge>): set<string> {
    if edges == [] then {}
    else
      var last := edges[|edges| - 1];
      Endpoints(edges[..|edges| - 1]) + {last.0, last.1}
  }

  /** The undirected reading of an edge list. */
  ghost function Links(edges: seq<Edge>): set<(string, string)> {
    if edges == [] then {}
    else
      var last := edges[|edges| - 1];
      Links(edges[..|edges| - 1]) + {(last.0, last.1), (last.1, last.0)}
  }

  ghost predicate Connected(edges: seq<Edge>, a: string, b: string) {
    Reaches(Links(edges), a, b)
  }

  ghost function Component(edges: seq<Edge>, n: string): set<string> {
    set m | m in Endpoints(edges) && Connected(edges, n, m)
  }

  /** The smallest node of each component. */
  ghost function Leaders(edges: seq<Edge>): set<string> {
    set r | r in Endpoints(edges) && forall m :: m in Component(edges, r) ==> Leq(r, m)
  }

  ghost function LeadersBelow(edges: seq<Edge>, n: string): set<string> {
    set r | r in Leaders(edges) && forall m :: m in Component(edges, n) ==> Less(r, m)
  }

  /** How many components have a smaller smallest member. */
  ghost function Rank(edges: seq<Edge>, n: string): nat {
    |LeadersBelow(edges, n)|
  }

  /** What the operation must return: every endpoint once, in order, with its component's rank. */
  ghost function Assignment(edges: seq<Edge>): seq<Row>
  {
    LeqIsTotal();
    var nodes := SortedSet(Leq, Endpoints(edges));
    seq(|nodes|, i requires 0 <= i < |nodes| => Row(nodes[i], Rank(edges, nodes[i])))
  }

  lemma ConnectedIsEquivalence(edges: seq<Edge>, a: string, b: string)
    ensures Connected(edges, a, a)
    ensures Connected(edges, a, b) ==> Connected(edges, b, a)
    ensures Connected(edges, a, b) ==> forall c :: Connected(edges, b, c) <==> Connected(edges, a, c)
  {
    var arcs := Links(edges);
    ReachesSelf(arcs, a);
    if Connected(edges, a, b) {
      LinksAreSymmetric(edges);
      ReachesSymmetric(arcs, a, b);
      forall c ensures Connected(edges, b, c) <==> Connected(edges, a, c) {
        if Connected(edges, b, c) { ReachesTransitive(arcs, a, b, c); }
        if Connected(edges, a, c) { ReachesTransitive(arcs, b, a, c); }
      }
    }
  }

  lemma SmallestMemberExists(edges: seq<Edge>, n: string)
    requires n in Endpoints(edges)
    ensures exists r :: r in Component(edges, n) && forall m :: m in Component(edges, n) ==> Leq(r, m)
  {
    ConnectedIsEquivalence(edges, n, n);
    LeqIsTotal();
    assert n in Component(edges, n);
    LeastExists(Leq, Component(edges, n));
    var r :| IsLeast(Leq, r, Component(edges, n));
  }

  /** The smallest node of n's component. */
  ghost function LeaderOf(edges: seq<Edge>, n: string): (r: string)
    requires n in Endpoints(edges)
    ensures r in Component(edges, n) && forall m :: m in Component(edges, n) ==> Leq(r, m)
  {
    SmallestMemberExists(edges, n);
    var r :| r in Component(edges, n) && forall m :: m in Component(edges, n) ==> Leq(r, m);
    r
  }

  lemma LeaderLeads(edges: seq<Edge>, n: string)
    requires n in Endpoints(edges)
    ensures LeaderOf(edges, n) in Leaders(edges)
    ensures Component(edges, LeaderOf(edges, n)) == Component(edges, n)
    ensures LeadersBelow(edges, n) == set q | q in Leaders(edges) && Less(q, LeaderOf(edges, n))
  {
    ConnectedIsEquivalence(edges, n, LeaderOf(edges, n));
    StringOrder();
  }

  lemma LeaderIsUnique(edges: seq<Edge>, n: string, r: string)
    requires n in Endpoints(edges) && r in Leaders(edges) && r in Component(edges, n)
    ensures r == LeaderOf(edges, n)
  {
    ConnectedIsEquivalence(edges, n, r);
    LessTrichotomy(r, LeaderOf(edges, n));
    assert LeaderOf(edges, n) in Component(edges, r);
  }

  lemma LeaderLeadsItself(edges: seq<Edge>, r: string)
    requires r in Leaders(edges)
    ensures LeaderOf(edges, r) == r
  {
    ConnectedIsEquivalence(edges, r, r);
    LeaderIsUnique(edges, r, r);
  }

  /** Two endpoints get the same id exactly when an undirected path joins them. */
  lemma RankSeparatesComponents(edges: seq<Edge>, a: string, b: string)
    requires a in Endpoints(edges) && b in Endpoints(edges)
    ensures Rank(edges, a) == Rank(edges, b) <==> Connected(edges, a, b)
  {
    var ra, rb := LeaderOf(edges, a), LeaderOf(edges, b);
    LeaderLeads(edges, a);
    LeaderLeads(edges, b);
    if Connected(edges, a, b) {
      ConnectedIsEquivalence(edges, a, b);
      assert Component(edges, a) == Component(edges, b);
    } else {
      LessTrichotomy(ra, rb);
      if ra == rb {
        ConnectedIsEquivalence(edges, b, rb);
        ReachesTransitive(Links(edges), a, ra, b);
      }
      StringOrder();
      if Less(ra, rb) {
        assert ra in LeadersBelow(edges, b) && ra !in LeadersBelow(edges, a);
        ProperSubsetIsSmaller(LeadersBelow(edges, a), LeadersBelow(edges, b));
      } else {
        assert rb in LeadersBelow(edges, a) && rb !in LeadersBelow(edges, b);
        ProperSubsetIsSmaller(LeadersBelow(edges, b), LeadersBelow(edges, a));
      }
    }
  }

  lemma ProperSubsetIsSmaller<T>(s: set<T>, t: set<T>)
    requires s < t
    ensures |s| < |t|
  {
    assert t == s + (t - s);
    assert t - s != {};
  }

  /** A node's rank is the position of its component's leader among the sorted leaders. */
  lemma RankIsLeaderIndex(edges: seq<Edge>, n: string, roots: seq<string>, k: nat)
    requires n in Endpoints(edges) && k < |roots|
    requires SortedBy(Leq, roots) && Distinct(roots)
    requires forall x :: x in roots <==> x in Leaders(edges)
    requires roots[k] == LeaderOf(edges, n)
    ensures Rank(edges, n) == k
  {
    LeaderLeads(edges, n);
    StringOrder();
    forall x ensures x in LeadersBelow(edges, n) <==> x in roots[..k] {
      if x in LeadersBelow(edges, n) {
        var j :| 0 <= j < |roots| && roots[j] == x;
        assert j < k;
      }
    }
    assert LeadersBelow(edges, n) == set x | x in roots[..k];
    DistinctCardinality(roots[..k]);
  }

  /** The ids in use are exactly 0 .. |Leaders| - 1. */
  lemma RanksAreDense(edges: seq<Edge>, id: nat)
    ensures id < |Leaders(edges)| <==> exists n :: n in Endpoints(edges) && Rank(edges, n) == id
  {
    LeqIsTotal();
    var roots := SortedSet(Leq, Leaders(edges));
    if id < |Leaders(edges)| {
      assert roots[id] in Leaders(edges);
      LeaderLeadsItself(edges, roots[id]);
      RankIsLeaderIndex(edges, roots[id], roots, id);
    }
    if n :| n in Endpoints(edges) && Rank(edges, n) == id {
      LeaderLeads(edges, n);
      var k :| 0 <= k < |roots| && roots[k] == LeaderOf(edges, n);
      RankIsLeaderIndex(edges, n, roots, k);
    }
  }

  /** The output lists every endpoint exactly once, and ids agree exactly along undirected paths. */
  lemma AssignmentPartitions(edges: seq<Edge>, i: nat, j: nat)
    requires i < |Assignment(edges)| && j < |Assignment(edges)|
    ensures var rows := Assignment(edges);
            && (rows[i].node == rows[j].node <==> i == j)
            && (rows[i].communityId == rows[j].communityId <==> Connected(edges, rows[i].node, rows[j].node))
    ensures forall n :: n in Endpoints(edges) <==> exists k :: 0 <= k < |Assignment(edges)| && Assignment(edges)[k].node == n
  {
    var rows := Assignment(edges);
    LeqIsTotal();
    var nodes := SortedSet(Leq, Endpoints(edges));
    assert nodes[i] in nodes && nodes[j] in nodes;
    RankSeparatesComponents(edges, nodes[i], nodes[j]);
    forall n | n in Endpoints(edges) ensures exists k :: 0 <= k < |rows| && rows[k].node == n {
      var k :| 0 <= k < |nodes| && nodes[k] == n;
      assert rows[k].node == n;
    }
    forall k | 0 <= k < |rows| ensures rows[k].node in Endpoints(edges) {
      assert rows[k].node == nodes[k];
    }
  }

  /** Permuting, flipping or repeating edges does not change the output. */
  lemma AssignmentIgnoresPresentation(edges: seq<Edge>, other: seq<Edge>)
    requires forall a, b :: (a, b) in edges || (b, a) in edges <==> (a, b) in other || (b, a) in other
    ensures Assignment(edges) == Assignment(other)
  {
    forall p ensures p in Links(edges) <==> p in Links(other) {
      assert (p.0, p.1) == p;
      assert (p in edges || (p.1, p.0) in edges) <==> (p in other || (p.1, p.0) in other);
      LinkMembership(edges, p);
      LinkMembership(other, p);
    }
    assert Links(edges) == Links(other);
    forall n ensures n in Endpoints(edges) <==> n in Endpoints(other) {
      EndpointMembership(edges, n);
      EndpointMembership(other, n);
    }
    assert Endpoints(edges) == Endpoints(other);
    forall n ensures Rank(edges, n) == Rank(other, n) {
      assert forall m :: Component(edges, m) == Component(other, m);
      assert Leaders(edges) == Leaders(other);
      assert LeadersBelow(edges, n) == LeadersBelow(other, n);
    }
  }

  lemma {:induction false} LinkMembership(edges: seq<Edge>, p: (string, string))
    ensures p in Links(edges) <==> p in edges || (p.1, p.0) in edges
  {
    if edges != [] {
      var init := edges[..|edges| - 1];
      LinkMembership(init, p);
      assert edges == init + [edges[|edges| - 1]];
    }
  }

  lemma {:induction false} EndpointMembership(edges: seq<Edge>, n: string)
    ensures n in Endpoints(edges) <==> exists m :: (n, m) in Links(edges)
  {
    if edges != [] {
      var init, last := edges[..|edges| - 1], edges[|edges| - 1];
      EndpointMembership(init, n);
      if m :| (n, m) in Links(init) {
        assert (n, m) in Links(edges);
      }
      assert (last.0, last.1) in Links(edges) && (last.1, last.0) in Links(edges);
    }
  }

  lemma LinksAreSymmetric(edges: seq<Edge>)
    ensures Symmetric(Links(edges))
  {
    forall a, b | (a, b) in Links(edges) ensures (b, a) in Links(edges) {
      LinkMembership(edges, (a, b));
      LinkMembership(edges, (b, a));
    }
  }

  // ----- The parent forest -----

  ghost predicate Parented(p: map<string, string>, n: string) {
    n in p && p[n] in p && Leq(p[n], n)
  }

  /** Parents are known and never larger than their children. */
  ghost predicate Descending(p: map<string, string>) {
    forall n {:trigger Parented(p, n)} :: n in p ==> Parented(p, n)
  }

  ghost function Below(p: map<string, string>, n: string): set<string> {
    set k | k in p && Less(k, n)
  }

  lemma BelowShrinks(p: map<string, string>, m: string, n: string)
    requires m in p && Less(m, n)
    ensures Below(p, m) < Below(p, n)
  {
    StringOrder();
    assert m in Below(p, n) && m !in Below(p, m);
  }

  ghost function Root(p: map<string, string>, n: string): (r: string)
    requires Descending(p) && n in p
    ensures r in p && p[r] == r && Leq(r, n)
    decreases Below(p, n)
  {
    assert Parented(p, n);
    if p[n] == n then n
    else
      BelowShrinks(p, p[n], n);
      var r := Root(p, p[n]);
      assert Leq(r, n) by { StringOrder(); }
      r
  }

  /** Where a node would be rooted, counting an unseen node as its own root. */
  ghost function RootOrSelf(p: map<string, string>, n: string): string
    requires Descending(p)
  {
    if n in p then Root(p, n) else n
  }

  /** Every node of q has the root it had in p; new nodes are their own roots. */
  ghost predicate KeepsRoots(p: map<string, string>, q: map<string, string>)
    requires Descending(p) && Descending(q)
  {
    forall n {:trigger Root(q, n)} :: n in q ==> Root(q, n) == RootOrSelf(p, n)
  }

  lemma {:induction false} AddingKeepsRoots(p: map<string, string>, node: string, n: string)
    requires Descending(p) && node !in p && n in p
    ensures Descending(p[node := node])
    ensures Root(p[node := node], n) == Root(p, n)
    decreases Below(p, n)
  {
    var q := p[node := node];
    forall k | k in q ensures Parented(q, k) {
      assert k in p ==> Parented(p, k);
    }
    assert Parented(p, n);
    if p[n] != n {
      BelowShrinks(p, p[n], n);
      AddingKeepsRoots(p, node, p[n]);
    }
  }

  lemma AddingStep(p: map<string, string>, node: string)
    requires Descending(p) && node !in p
    ensures Descending(p[node := node]) && Root(p[node := node], node) == node
    ensures forall n {:trigger Root(p[node := node], n)} :: n in p ==> Root(p[node := node], n) == Root(p, n)
  {
    var q := p[node := node];
    forall k | k in q ensures Parented(q, k) {
      assert k in p ==> Parented(p, k);
    }
    forall n | n in p ensures Root(q, n) == Root(p, n) {
      AddingKeepsRoots(p, node, n);
    }
  }

  lemma HalvingDescends(p: map<string, string>, m: string)
    requires Descending(p) && m in p && p[m] in p
    ensures Parented(p, m) && Parented(p, p[m]) && Descending(p[m := p[p[m]]])
  {
    var q := p[m := p[p[m]]];
    assert Parented(p, m) && Parented(p, p[m]);
    assert Leq(q[m], m) by { StringOrder(); }
    forall k | k in q ensures Parented(q, k) {
      assert Parented(p, k);
    }
  }

  /** Path halving changes no root. */
  lemma {:induction false} HalvingKeepsRoots(p: map<string, string>, m: string, n: string)
    requires Descending(p) && m in p && n in p && p[m] in p && p[m] != m
    ensures Descending(p[m := p[p[m]]])
    ensures Root(p[m := p[p[m]]], n) == Root(p, n)
    decreases Below(p, n)
  {
    HalvingDescends(p, m);
    assert Parented(p, n);
    if p[n] != n {
      BelowShrinks(p, p[n], n);
      HalvingKeepsRoots(p, m, p[n]);
      if n == m && p[p[m]] != p[m] {
        assert Less(p[p[m]], n) by { LessTransitive(p[p[m]], p[m], m); }
        BelowShrinks(p, p[p[m]], n);
        HalvingKeepsRoots(p, m, p[p[m]]);
      }
    }
  }

  lemma {:induction false} LinkingRedirectsRoots(p: map<string, string>, hi: string, lo: string, n: string)
    requires Descending(p) && n in p
    requires hi in p && lo in p && p[hi] == hi && p[lo] == lo && Less(lo, hi)
    ensures Descending(p[hi := lo])
    ensures Root(p[hi := lo], n) == if Root(p, n) == hi then lo else Root(p, n)
    decreases Below(p, n)
  {
    var q := p[hi := lo];
    forall k | k in q ensures Parented(q, k) {
      assert Parented(p, k);
    }
    assert Parented(p, n) && !Less(hi, lo) by { LessTrichotomy(lo, hi); }
    if p[n] != n {
      BelowShrinks(p, p[n], n);
      LinkingRedirectsRoots(p, hi, lo, p[n]);
    }
  }

  lemma HalvingStep(p: map<string, string>, m: string)
    requires Descending(p) && m in p && p[m] in p && p[m] != m
    ensures var q := p[m := p[p[m]]];
            && Descending(q) && q.Keys == p.Keys && q[m] in q && Root(q, q[m]) == Root(p, m)
            && Below(q, q[m]) < Below(p, m)
            && forall n {:trigger Root(q, n)} :: n in p ==> Root(q, n) == Root(p, n)
  {
    var q := p[m := p[p[m]]];
    HalvingDescends(p, m);
    forall n | n in p ensures Root(q, n) == Root(p, n) {
      HalvingKeepsRoots(p, m, n);
    }
    assert Less(q[m], m) by {
      if p[p[m]] != p[m] { LessTransitive(p[p[m]], p[m], m); }
    }
    BelowShrinks(p, q[m], m);
    assert Below(q, q[m]) == Below(p, q[m]);
  }

  lemma LinkingStep(p: map<string, string>, hi: string, lo: string)
    requires Descending(p)
    requires hi in p && lo in p && p[hi] == hi && p[lo] == lo && Less(lo, hi)
    ensures var q := p[hi := lo];
            && Descending(q) && q.Keys == p.Keys
            && forall n {:trigger Root(q, n)} :: n in p ==> Root(q, n) == if Root(p, n) == hi then lo else Root(p, n)
  {
    LinkingRedirectsRoots(p, hi, lo, lo);
    forall n | n in p ensures Root(p[hi := lo], n) == if Root(p, n) == hi then lo else Root(p, n) {
      LinkingRedirectsRoots(p, hi, lo, n);
    }
  }

  function Smaller(a: string, b: string): string {
    if Less(a, b) then a else b
  }

  /** After a union both classes hang under the smaller root; every other class is untouched. */
  ghost predicate Merged(p: map<string, string>, q: map<string, string>, left: string, right: string)
    requires Descending(p) && Descending(q)
  {
    var l, r := RootOrSelf(p, left), RootOrSelf(p, right);
    && q.Keys == p.Keys + {left, right}
    && forall n {:trigger Root(q, n)} :: n in q ==>
      Root(q, n) == if RootOrSelf(p, n) == l || RootOrSelf(p, n) == r then Smaller(l, r) else RootOrSelf(p, n)
  }

  lemma FindTwice(p0: map<string, string>, p1: map<string, string>, p2: map<string, string>, left: string, right: string)
    requires Descending(p0) && Descending(p1) && Descending(p2)
    requires p1.Keys == p0.Keys + {left} && p2.Keys == p1.Keys + {right}
    requires KeepsRoots(p0, p1)
    requires KeepsRoots(p1, p2)
    ensures RootOrSelf(p1, right) == RootOrSelf(p0, right)
    ensures Root(p2, left) == RootOrSelf(p0, left) && Root(p2, right) == RootOrSelf(p0, right)
    ensures p2.Keys == p0.Keys + {left, right}
    ensures KeepsRoots(p0, p2)
    ensures Root(p2, left) == Root(p2, right) ==> Merged(p0, p2, left, right)
  {
  }

  lemma LinkMerges(p: map<string, string>, q: map<string, string>, left: string, right: string)
    requires Descending(p) && Descending(q) && q.Keys == p.Keys + {left, right}
    requires KeepsRoots(p, q)
    requires Root(q, left) != Root(q, right)
    ensures var l, r := Root(q, left), Root(q, right);
            var linked := if Less(l, r) then q[r := l] else q[l := r];
            Descending(linked) && Merged(p, linked, left, right)
  {
    var l, r := Root(q, left), Root(q, right);
    LessTrichotomy(l, r);
    if Less(l, r) {
      LinkingStep(q, r, l);
    } else {
      LinkingStep(q, l, r);
    }
  }

  class Forest {
    var parent: map<string, string>

    constructor ()
      ensures parent == map[]
    {
      parent := map[];
    }

    method Find(start: string) returns (node: string)
      requires Descending(parent)
      modifies this
      ensures Descending(parent) && parent.Keys == old(parent.Keys) + {start}
      ensures node == RootOrSelf(old(parent), start)
      ensures KeepsRoots(old(parent), parent)
    {
      if start !in parent {
        AddingStep(parent, start);
        parent := parent[start := start];
      }
      ghost var seen := parent;
      node := start;
      assert Parented(parent, node);
      while parent[node] != node
        invariant Descending(parent) && parent.Keys == seen.Keys && node in parent
        invariant Parented(parent, node) && Root(parent, node) == Root(seen, start)
        invariant forall n {:trigger Root(parent, n)} :: n in seen ==> Root(parent, n) == Root(seen, n)
        decreases Below(parent, node)
      {
        HalvingStep(parent, node);
        assert Parented(parent, parent[node]);
        parent := parent[node := parent[parent[node]]];
        node := parent[node];
        assert Parented(parent, node);
      }
    }

    method Union(left: string, right: string)
      requires Descending(parent)
      modifies this
      ensures Descending(parent) && Merged(old(parent), parent, left, right)
    {
      ghost var p0 := parent;
      var leftRoot := Find(left);
      ghost var p1 := parent;
      var rightRoot := Find(right);
      FindTwice(p0, p1, parent, left, right);
      if leftRoot == rightRoot {
        return;
      }
      LinkMerges(p0, parent, left, right);
      if Less(leftRoot, rightRoot) {
        parent := parent[rightRoot := leftRoot];
      } else {
        parent := parent[leftRoot := rightRoot];
      }
    }
  }

  // ----- What the forest means -----

  ghost predicate SameClass(p: map<string, string>, a: string, b: string)
    requires Descending(p)
  {
    a in p && b in p && Root(p, a) == Root(p, b)
  }

  /** The forest's classes are joined by edges, and every edge stays inside a class. */
  ghost predicate Represents(p: map<string, string>, edges: seq<Edge>) {
    && Descending(p)
    && p.Keys == Endpoints(edges)
    && (forall e {:trigger SameClass(p, e.0, e.1)} :: e in edges ==> SameClass(p, e.0, e.1))
    && (forall n {:trigger Root(p, n)} :: n in p ==> Connected(edges, n, Root(p, n)))
  }

  lemma ConnectedAfterEdge(edges: seq<Edge>, e: Edge, a: string, b: string)
    ensures Connected(edges, a, b) ==> Connected(edges + [e], a, b)
    ensures Connected(edges + [e], e.0, e.1)
  {
    var more := edges + [e];
    forall p | p in Links(edges) ensures p in Links(more) {
      LinkMembership(edges, p);
      LinkMembership(more, p);
    }
    if Connected(edges, a, b) {
      ReachesMonotone(Links(edges), Links(more), a, b);
    }
    LinkMembership(more, e);
    ReachesArc(Links(more), e.0, e.1);
  }

  lemma RootOrSelfConnected(p: map<string, string>, edges: seq<Edge>, e: Edge, n: string)
    requires Represents(p, edges)
    ensures Connected(edges + [e], n, RootOrSelf(p, n))
  {
    ConnectedIsEquivalence(edges, n, n);
    ConnectedAfterEdge(edges, e, n, RootOrSelf(p, n));
  }

  lemma BothRootsConnected(p: map<string, string>, edges: seq<Edge>, e: Edge)
    requires Represents(p, edges)
    ensures var l, r := RootOrSelf(p, e.0), RootOrSelf(p, e.1);
            Connected(edges + [e], l, r) && Connected(edges + [e], r, l)
  {
    var more := edges + [e];
    var l, r := RootOrSelf(p, e.0), RootOrSelf(p, e.1);
    RootOrSelfConnected(p, edges, e, e.0);
    RootOrSelfConnected(p, edges, e, e.1);
    ConnectedAfterEdge(edges, e, l, r);
    ConnectedIsEquivalence(more, e.0, l);
    ConnectedIsEquivalence(more, e.0, e.1);
    ConnectedIsEquivalence(more, e.1, r);
    ConnectedIsEquivalence(more, l, r);
  }

  lemma UnionConnects(p: map<string, string>, q: map<string, string>, edges: seq<Edge>, e: Edge, n: string)
    requires Represents(p, edges) && Descending(q) && Merged(p, q, e.0, e.1) && n in q
    ensures Connected(edges + [e], n, Root(q, n))
  {
    var l, r, o := RootOrSelf(p, e.0), RootOrSelf(p, e.1), RootOrSelf(p, n);
    RootOrSelfConnected(p, edges, e, n);
    BothRootsConnected(p, edges, e);
    ConnectedIsEquivalence(edges + [e], n, o);
    assert o == l ==> Connected(edges + [e], n, r);
    assert o == r ==> Connected(edges + [e], n, l);
    assert Root(q, n) == if o == l || o == r then Smaller(l, r) else o;
  }

  lemma UnionKeepsClass(p: map<string, string>, q: map<string, string>, edges: seq<Edge>, e: Edge, f: Edge)
    requires Represents(p, edges) && Descending(q) && Merged(p, q, e.0, e.1) && (f == e || f in edges)
    ensures SameClass(q, f.0, f.1)
  {
    assert f == e || SameClass(p, f.0, f.1);
    assert Root(q, f.0) == Root(q, f.1);
  }

  lemma UnionRepresents(p: map<string, string>, q: map<string, string>, edges: seq<Edge>, e: Edge)
    requires Represents(p, edges) && Descending(q) && Merged(p, q, e.0, e.1)
    ensures Represents(q, edges + [e])
  {
    var more := edges + [e];
    assert more[..|more| - 1] == edges;
    forall n | n in q ensures Connected(more, n, Root(q, n)) {
      UnionConnects(p, q, edges, e, n);
    }
    forall f | f in more ensures SameClass(q, f.0, f.1) {
      UnionKeepsClass(p, q, edges, e, f);
    }
  }

  lemma RootsAreComponents(p: map<string, string>, edges: seq<Edge>, a: string, b: string)
    requires Represents(p, edges) && a in p && b in p
    ensures Root(p, a) == Root(p, b) <==> Connected(edges, a, b)
  {
    ConnectedIsEquivalence(edges, a, Root(p, a));
    ConnectedIsEquivalence(edges, b, Root(p, b));
    if Connected(edges, a, b) {
      var s := iset n | n in p && Root(p, n) == Root(p, a);
      forall m, n | m in s && (m, n) in Links(edges) ensures n in s {
        LinkMembership(edges, (m, n));
        var e: Edge := if (m, n) in edges then (m, n) else (n, m);
        assert e in edges && SameClass(p, e.0, e.1);
      }
      ReachesStaysInside(Links(edges), s, a, b);
    }
  }

  /** Each root is the smallest node of its component. */
  lemma RootIsLeader(p: map<string, string>, edges: seq<Edge>, n: string)
    requires Represents(p, edges) && n in p
    ensures Root(p, n) == LeaderOf(edges, n)
  {
    var r := Root(p, n);
    forall m | m in Component(edges, r) ensures Leq(r, m) {
      RootsAreComponents(p, edges, r, m);
    }
    LeaderIsUnique(edges, n, r);
  }

  predicate HasNull(column: seq<Option<string>>) {
    exists i :: 0 <= i < |column| && column[i].None?
  }

  function Values(column: seq<Option<string>>): (r: seq<string>)
    requires !HasNull(column)
    ensures |r| == |column| && forall i :: 0 <= i < |column| ==> column[i] == Some(r[i])
  {
    seq(|column|, i requires 0 <= i < |column| => column[i].value)
  }

  function Zip(sources: seq<string>, targets: seq<string>): (r: seq<Edge>)
    requires |sources| == |targets|
    ensures |r| == |sources| && forall i :: 0 <= i < |r| ==> r[i] == (sources[i], targets[i])
  {
    seq(|sources|, i requires 0 <= i < |sources| => (sources[i], targets[i]))
  }

  method BuildForest(edges: seq<Edge>) returns (forest: Forest)
    ensures fresh(forest) && Represents(forest.parent, edges)
  {
    forest := new Forest();
    for i := 0 to |edges|
      invariant fresh(forest) && Represents(forest.parent, edges[..i])
    {
      ghost var before := forest.parent;
      forest.Union(edges[i].0, edges[i].1);
      UnionRepresents(before, forest.parent, edges[..i], edges[i]);
      assert edges[..i] + [edges[i]] == edges[..i + 1];
    }
    assert edges[..|edges|] == edges;
  }

  lemma SameRootsRepresent(p: map<string, string>, q: map<string, string>, edges: seq<Edge>)
    requires Represents(p, edges) && Descending(q) && q.Keys == p.Keys
    requires KeepsRoots(p, q)
    ensures Represents(q, edges)
  {
    forall e | e in edges ensures SameClass(q, e.0, e.1) {
      assert SameClass(p, e.0, e.1);
      assert Root(q, e.0) == Root(q, e.1);
    }
  }

  /** find() on a known node, seen through the connectivity specification. */
  method FindLeader(forest: Forest, ghost edges: seq<Edge>, node: string) returns (root: string)
    requires Represents(forest.parent, edges) && node in Endpoints(edges)
    modifies forest
    ensures Represents(forest.parent, edges) && root == LeaderOf(edges, node)
  {
    ghost var before := forest.parent;
    root := forest.Find(node);
    assert forest.parent.Keys == before.Keys;
    SameRootsRepresent(before, forest.parent, edges);
    RootIsLeader(before, edges, node);
  }

  method SortedRoots(forest: Forest, nodes: seq<string>, ghost edges: seq<Edge>) returns (roots: seq<string>)
    requires Represents(forest.parent, edges) && forall n :: n in nodes <==> n in Endpoints(edges)
    modifies forest
    ensures Represents(forest.parent, edges)
    ensures SortedBy(Leq, roots) && Distinct(roots)
    ensures forall x :: x in roots <==> x in Leaders(edges)
  {
    var found: set<string> := {};
    for i := 0 to |nodes|
      invariant Represents(forest.parent, edges)
      invariant forall k :: 0 <= k < i ==> nodes[k] in nodes && LeaderOf(edges, nodes[k]) in found
      invariant found <= Leaders(edges)
    {
      var root := FindLeader(forest, edges, nodes[i]);
      LeaderLeads(edges, nodes[i]);
      found := found + {root};
    }
    LeqIsTotal();
    roots := SortedSet(Leq, found);
    forall x | x in Leaders(edges) ensures x in roots {
      assert x in nodes;
      LeaderLeadsItself(edges, x);
    }
  }

  method LabelNodes(forest: Forest, nodes: seq<string>, roots: seq<string>, ghost edges: seq<Edge>) returns (rows: seq<Row>)
    requires Represents(forest.parent, edges) && forall n :: n in nodes ==> n in Endpoints(edges)
    requires SortedBy(Leq, roots) && Distinct(roots)
    requires forall x :: x in roots <==> x in Leaders(edges)
    modifies forest
    ensures |rows| == |nodes|
    ensures forall k :: 0 <= k < |rows| ==> rows[k] == Row(nodes[k], Rank(edges, nodes[k]))
  {
    hide Represents, Leaders, Rank, Endpoints;
    var communityIds := map[];
    for k := 0 to |roots|
      invariant forall j :: 0 <= j < k ==> roots[j] in communityIds && communityIds[roots[j]] == j
    {
      communityIds := communityIds[roots[k] := k];
    }
    rows := [];
    for i := 0 to |nodes|
      invariant Represents(forest.parent, edges)
      invariant |rows| == i
      invariant forall k :: 0 <= k < i ==> rows[k] == Row(nodes[k], Rank(edges, nodes[k]))
    {
      assert nodes[i] in nodes;
      var root := FindLeader(forest, edges, nodes[i]);
      LeaderLeads(edges, nodes[i]);
      ghost var k :| 0 <= k < |roots| && roots[k] == root;
      RankIsLeaderIndex(edges, nodes[i], roots, k);
      rows := rows + [Row(nodes[i], communityIds[root])];
    }
  }

  lemma AssignmentIs(edges: seq<Edge>, nodes: seq<string>, rows: seq<Row>)
    requires TotalOrder(Leq) && nodes == SortedSet(Leq, Endpoints(edges))
    requires |rows| == |nodes| && forall k :: 0 <= k < |rows| ==> rows[k] == Row(nodes[k], Rank(edges, nodes[k]))
    ensures rows == Assignment(edges)
  {
  }

  /** The whole operation; the only input error left to it is a null endpoint. */
  method CommunityAssign(sources: seq<Option<string>>, targets: seq<Option<string>>)
    returns (r: Result<seq<Row>, InputError>)
    requires |sources| == |targets|
    ensures r.Err? <==> HasNull(sources) || HasNull(targets)
    ensures r.Ok? ==> r.value == Assignment(Zip(Values(sources), Values(targets)))
  {
    if HasNull(sources) || HasNull(targets) {
      return Err(NullEndpoint);
    }
    var edges := Zip(Values(sources), Values(targets));
    var forest := BuildForest(edges);
    LeqIsTotal();
    var nodes := SortedSet(Leq, forest.parent.Keys);
    var roots := SortedRoots(forest, nodes, edges);
    var rows := LabelNodes(forest, nodes, roots, edges);
    AssignmentIs(edges, nodes, rows);
    r := Ok(rows);
  }
}
