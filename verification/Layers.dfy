// build_layers: children lists and the subtree below each element.

module Layers {
  import opened Common
  import opened Ordering
  import opened Forests
  import opened DocTree

  /** An empty parent id counts as no parent here, as truth testing has it. */
  function LinkOf(e: Element): Option<string> {
    if e.parent.Some? && e.parent.value == "" then None else e.parent
  }

  function Links(elements: seq<Element>): Parents {
    if elements == [] then map[]
    else
      var last := elements[|elements| - 1];
      Links(elements[..|elements| - 1])[last.id := LinkOf(last)]
  }

  /** The ids of the elements whose parent is key, as listed. */
  function ListedChildren(elements: seq<Element>, key: string): seq<string> {
    if elements == [] then []
    else
      var last := elements[|elements| - 1];
      ListedChildren(elements[..|elements| - 1], key) + if LinkOf(last) == Some(key) then [last.id] else []
  }

  function Orders(elements: seq<Element>): map<string, int> {
    if elements == [] then map[]
    else Orders(elements[..|elements| - 1])[elements[|elements| - 1].id := elements[|elements| - 1].order]
  }

  function OrderAt(orders: map<string, int>, id: string): int {
    if id in orders then orders[id] else 0
  }

  function ByOrder(orders: map<string, int>): (leq: (string, string) -> bool)
    ensures TotalPreorder(leq)
  {
    (a, b) => OrderAt(orders, a) <= OrderAt(orders, b)
  }

  /** The children of a key, sorted by document order. */
  function ChildrenOf(elements: seq<Element>, key: string): seq<string> {
    SortBy(ByOrder(Orders(elements)), ListedChildren(elements, key))
  }

  function ChildrenMap(elements: seq<Element>): map<string, seq<string>> {
    map key | key in IdSet(elements) :: ChildrenOf(elements, key)
  }

  ghost predicate LinksKnown(elements: seq<Element>, ids: set<string>) {
    forall i :: 0 <= i < |elements| && LinkOf(elements[i]).Some? ==> LinkOf(elements[i]).value in ids
  }

  /** The lists hold the children among the elements read so far. */
  ghost predicate Listed(children: map<string, seq<string>>, elements: seq<Element>) {
    forall key :: key in children ==> children[key] == ListedChildren(elements, key)
  }

  lemma ListedNext(children: map<string, seq<string>>, elements: seq<Element>, i: nat)
    requires i < |elements| && Listed(children, elements[..i])
    requires LinkOf(elements[i]).Some? ==> LinkOf(elements[i]).value in children
    ensures var link := LinkOf(elements[i]);
            Listed(if link.Some? then children[link.value := children[link.value] + [elements[i].id]] else children, elements[..i + 1])
  {
    assert elements[..i + 1][..i] == elements[..i];
  }

  lemma SortedChildren(elements: seq<Element>, children: map<string, seq<string>>)
    requires children.Keys == IdSet(elements) && Listed(children, elements)
    ensures (map key | key in IdSet(elements) :: SortBy(ByOrder(Orders(elements)), children[key])) == ChildrenMap(elements)
  {
    hide ListedChildren, IdSet, Orders, SortBy;
  }

  method ListChildren(elements: seq<Element>) returns (children: map<string, seq<string>>)
    requires LinksKnown(elements, IdSet(elements))
    ensures children.Keys == IdSet(elements) && Listed(children, elements)
  {
    var ids := IdSet(elements);
    children := map key | key in ids :: [];
    assert Listed(children, elements[..0]);
    hide Listed, IdSet;
    for i := 0 to |elements|
      invariant children.Keys == ids && Listed(children, elements[..i])
    {
      ListedNext(children, elements, i);
      var link := LinkOf(elements[i]);
      if link.Some? {
        children := children[link.value := children[link.value] + [elements[i].id]];
      }
    }
    assert elements[..|elements|] == elements;
  }

  method BuildChildren(elements: seq<Element>) returns (children: map<string, seq<string>>)
    requires LinksKnown(elements, IdSet(elements))
    ensures children == ChildrenMap(elements)
  {
    hide Listed, IdSet, Orders, ChildrenMap, SortBy;
    children := ListChildren(elements);
    SortedChildren(elements, children);
    var ids, orders := IdSet(elements), Orders(elements);
    children := map key | key in ids :: SortBy(ByOrder(orders), children[key]);
  }

  lemma {:induction false} LinksKeys(elements: seq<Element>)
    ensures Links(elements).Keys == IdSet(elements)
  {
    if elements != [] {
      LinksKeys(elements[..|elements| - 1]);
    }
  }

  lemma {:induction false} LinksAt(elements: seq<Element>, i: nat)
    requires UniqueIds(elements) && i < |elements|
    ensures elements[i].id in Links(elements) && Links(elements)[elements[i].id] == LinkOf(elements[i])
  {
    if i < |elements| - 1 {
      LinksAt(elements[..|elements| - 1], i);
    }
  }

  lemma {:induction false} ListedAre(elements: seq<Element>, key: string)
    requires UniqueIds(elements)
    ensures Distinct(ListedChildren(elements, key))
    ensures forall c :: c in ListedChildren(elements, key) <==> c in Links(elements) && Links(elements)[c] == Some(key)
  {
    if elements != [] {
      var init, last := elements[..|elements| - 1], elements[|elements| - 1];
      assert elements == init + [last];
      LastIsNew(init, last);
      ListedAre(init, key);
      LinksKeys(init);
    }
  }

  lemma DistinctPermutation(s: seq<string>, t: seq<string>)
    requires multiset(s) == multiset(t) && Distinct(s)
    ensures Distinct(t) && forall x :: x in t <==> x in s
  {
    forall x ensures x in t <==> x in s {
      assert x in multiset(t) <==> x in multiset(s);
    }
    assert |s| == |multiset(s)| == |multiset(t)| == |t|;
    CardinalityTellsDistinct(s);
    CardinalityTellsDistinct(t);
    assert (set x | x in s) == (set x | x in t);
  }

  lemma ChildrenAreListed(elements: seq<Element>)
    requires UniqueIds(elements)
    ensures ListsChildren(Links(elements), ChildrenMap(elements))
  {
    LinksKeys(elements);
    forall key | key in IdSet(elements)
      ensures Distinct(ChildrenOf(elements, key))
      ensures forall c :: c in ChildrenOf(elements, key) <==> c in Links(elements) && Links(elements)[c] == Some(key)
    {
      ListedAre(elements, key);
      DistinctPermutation(ListedChildren(elements, key), ChildrenOf(elements, key));
    }
  }

  lemma LinksForest(elements: seq<Element>)
    requires UniqueIds(elements) && Forest(ParentsOf(elements))
    ensures Forest(Links(elements))
  {
    var p, rank := Links(elements), SomeRank(ParentsOf(elements));
    LinksKeys(elements);
    ParentsKeys(elements);
    forall k | k in p ensures RankedAt(p, rank, k) {
      var i := IndexOfId(elements, k);
      LinksAt(elements, i);
      ParentsAt(elements, i);
      assert RankedAt(ParentsOf(elements), rank, k);
    }
    assert Ranks(p, rank);
  }

  /** The links are the parents that validation saw exactly when no parent id is the empty string. */
  lemma LinksAreParents(elements: seq<Element>)
    requires UniqueIds(elements)
    ensures Links(elements) == ParentsOf(elements) <==> forall i :: 0 <= i < |elements| ==> elements[i].parent != Some("")
  {
    forall i | 0 <= i < |elements|
      ensures Links(elements) == ParentsOf(elements) ==> elements[i].parent != Some("")
    {
      LinksAt(elements, i);
      ParentsAt(elements, i);
    }
    if forall i :: 0 <= i < |elements| ==> elements[i].parent != Some("") {
      WithoutEmptyParents(elements);
    }
  }

  lemma {:induction false} WithoutEmptyParents(elements: seq<Element>)
    requires forall i :: 0 <= i < |elements| ==> elements[i].parent != Some("")
    ensures Links(elements) == ParentsOf(elements)
  {
    if elements != [] {
      WithoutEmptyParents(elements[..|elements| - 1]);
    }
  }

  /** The subtree listed under an element of a valid tree. */
  ghost function SubtreeOf(t: Tree, key: string): seq<string>
    requires ValidTree(t) && key in IdSet(t.elements)
  {
    LinksForest(t.elements);
    LinksKeys(t.elements);
    ChildrenAreListed(t.elements);
    Descendants(ChildrenMap(t.elements), key, Links(t.elements), SomeDepths(Links(t.elements)))
  }

  /** On every valid tree descendants terminates and lists, once each, exactly the key and the
      elements with the key among their ancestors. */
  lemma SubtreesAreExact(t: Tree, key: string)
    requires ValidTree(t) && key in IdSet(t.elements)
    ensures Forest(Links(t.elements))
    ensures ListsExactly(SubtreeOf(t, key), Below(Links(t.elements), SomeDepths(Links(t.elements)), key))
  {
    LinksForest(t.elements);
    LinksKeys(t.elements);
    ChildrenAreListed(t.elements);
    DescendantsAreBelow(ChildrenMap(t.elements), key, Links(t.elements), SomeDepths(Links(t.elements)));
  }

  /** The elements of a valid tree whose ancestor chain, by the stored parents, contains the key. */
  ghost function StoredBelow(t: Tree, key: string): set<string>
    requires ValidTree(t)
  {
    Below(ParentsOf(t.elements), SomeDepths(ParentsOf(t.elements)), key)
  }

  ghost predicate ListsStored(t: Tree, key: string)
    requires ValidTree(t) && key in IdSet(t.elements)
  {
    ListsExactly(SubtreeOf(t, key), StoredBelow(t, key))
  }

  /** An element under the empty id is not listed below it. */
  lemma EmptyParentMissed(t: Tree, i: nat)
    requires ValidTree(t) && i < |t.elements| && t.elements[i].parent == Some("")
    ensures "" in IdSet(t.elements) && t.elements[i].id in StoredBelow(t, "") && t.elements[i].id !in SubtreeOf(t, "")
  {
    var p, links, x := ParentsOf(t.elements), Links(t.elements), t.elements[i].id;
    assert Acceptable(t.elements[i], IdSet(t.elements));
    ParentsAt(t.elements, i);
    LinksAt(t.elements, i);
    ParentsKeys(t.elements);
    var depth := SomeDepths(p);
    assert DepthAt(p, depth, x);
    assert InChain(p, depth, "", "") && InChain(p, depth, "", x);
    SubtreesAreExact(t, "");
    assert DepthAt(links, SomeDepths(links), x);
  }

  /** On a valid tree descendants lists, once each, exactly the elements whose ancestor chain contains
      the key, for every key, exactly when no element's parent is the empty id. */
  lemma SubtreesFollowParentsIff(t: Tree)
    requires ValidTree(t)
    ensures (forall key :: key in IdSet(t.elements) ==> ListsStored(t, key)) <==>
            forall i :: 0 <= i < |t.elements| ==> t.elements[i].parent != Some("")
  {
    if i :| 0 <= i < |t.elements| && t.elements[i].parent == Some("") {
      EmptyParentMissed(t, i);
      assert !ListsStored(t, "");
    } else {
      LinksAreParents(t.elements);
      forall key | key in IdSet(t.elements) ensures ListsStored(t, key) {
        SubtreesAreExact(t, key);
      }
    }
  }

  /** A valid tree of two elements, the second under the first, whose id is empty. */
  function EmptyIdTree(): Tree {
    var elements := [Element("", "Paragraph", "x", 0, 0, None, None, 0, 1), Element("a", "Paragraph", "y", 0, 0, None, Some(""), 0, 1)];
    Tree("source", Joined(elements), Rebased(elements))
  }

  /** There descendants("") misses the child. */
  lemma EmptyIdLosesChild()
    ensures ValidTree(EmptyIdTree()) && "" in IdSet(EmptyIdTree().elements)
    ensures "a" in StoredBelow(EmptyIdTree(), "") && "a" !in SubtreeOf(EmptyIdTree(), "")
  {
    var first, second := Element("", "Paragraph", "x", 0, 0, None, None, 0, 1), Element("a", "Paragraph", "y", 0, 0, None, Some(""), 0, 1);
    var elements := [first, second];
    assert elements[..1] == [first] && [first][..0] == [];
    assert IdSet([first]) == {""};
    assert IdSet(elements) == {"", "a"};
    var none: Parents := map[];
    assert ParentsOf([]) == none;
    assert ParentsOf([first]) == none["" := None];
    var p := ParentsOf(elements);
    assert p == none["" := None]["a" := Some("")];
    assert p == map["" := None, "a" := Some("")];
    assert Ranks(p, map["" := 0, "a" := 1]) by {
      assert RankedAt(p, map["" := 0, "a" := 1], "") && RankedAt(p, map["" := 0, "a" := 1], "a");
    }
    assert Acceptable(first, IdSet(elements)) && Acceptable(second, IdSet(elements));
    assert Buildable(elements);
    BuiltIsValid("source", elements);
    var t := EmptyIdTree();
    assert t.elements[1].id == "a" && t.elements[1].parent == Some("");
    EmptyParentMissed(t, 1);
  }

  ghost predicate DepthAt(p: Parents, depth: map<string, nat>, k: string) {
    && k in p && k in depth
    && (p[k].None? ==> depth[k] == 0)
    && (p[k].Some? ==> p[k].value in p && p[k].value in depth && depth[k] == depth[p[k].value] + 1)
  }

  /** Exact distances from the root. */
  ghost predicate Depths(p: Parents, depth: map<string, nat>) {
    depth.Keys == p.Keys && forall k {:trigger DepthAt(p, depth, k)} :: k in p ==> DepthAt(p, depth, k)
  }

  ghost function DepthOf(p: Parents, rank: map<string, nat>, k: string): nat
    requires Ranks(p, rank) && k in p
    decreases rank[k]
  {
    assert RankedAt(p, rank, k);
    if p[k].None? then 0 else DepthOf(p, rank, p[k].value) + 1
  }

  lemma ForestHasDepths(p: Parents)
    requires Forest(p)
    ensures exists depth :: Depths(p, depth)
  {
    var rank := SomeRank(p);
    var depth := map k | k in p :: DepthOf(p, rank, k);
    forall k | k in p ensures DepthAt(p, depth, k) {
      assert RankedAt(p, rank, k);
    }
    assert Depths(p, depth);
  }

  ghost function SomeDepths(p: Parents): (depth: map<string, nat>)
    requires Forest(p)
    ensures Depths(p, depth)
  {
    ForestHasDepths(p);
    var depth :| Depths(p, depth);
    depth
  }

  /** key is x or one of x's ancestors. */
  ghost predicate InChain(p: Parents, depth: map<string, nat>, key: string, x: string)
    requires Depths(p, depth) && x in p
    decreases depth[x]
  {
    assert DepthAt(p, depth, x);
    x == key || (p[x].Some? && InChain(p, depth, key, p[x].value))
  }

  ghost function Below(p: Parents, depth: map<string, nat>, key: string): set<string>
    requires Depths(p, depth)
  {
    set x | x in p && InChain(p, depth, key, x)
  }

  lemma {:induction false} ChainDepth(p: Parents, depth: map<string, nat>, key: string, x: string)
    requires Depths(p, depth) && x in p && InChain(p, depth, key, x)
    ensures key in p && depth[key] <= depth[x] && (depth[key] == depth[x] ==> key == x)
    decreases depth[x]
  {
    assert DepthAt(p, depth, x);
    if x != key {
      ChainDepth(p, depth, key, p[x].value);
    }
  }

  /** Two ids at the same depth on one chain are the same. */
  lemma {:induction false} ChainUnique(p: Parents, depth: map<string, nat>, a: string, b: string, x: string)
    requires Depths(p, depth) && x in p && InChain(p, depth, a, x) && InChain(p, depth, b, x)
    requires a in p && b in p && depth[a] == depth[b]
    ensures a == b
    decreases depth[x]
  {
    assert DepthAt(p, depth, x);
    if x == a {
      ChainDepth(p, depth, b, x);
    } else if x == b {
      ChainDepth(p, depth, a, x);
    } else {
      ChainUnique(p, depth, a, b, p[x].value);
    }
  }

  /** x is below key exactly when it is key or is below one of key's children. */
  lemma {:induction false} BelowThroughChild(p: Parents, depth: map<string, nat>, key: string, x: string) returns (c: string)
    requires Depths(p, depth) && x in p && InChain(p, depth, key, x) && x != key
    ensures c in p && p[c] == Some(key) && InChain(p, depth, c, x)
    decreases depth[x]
  {
    assert DepthAt(p, depth, x);
    if p[x].value == key {
      c := x;
    } else {
      c := BelowThroughChild(p, depth, key, p[x].value);
    }
  }

  lemma {:induction false} ChildChain(p: Parents, depth: map<string, nat>, key: string, c: string, x: string)
    requires Depths(p, depth) && x in p && c in p && p[c] == Some(key) && InChain(p, depth, c, x)
    ensures InChain(p, depth, key, x)
    decreases depth[x]
  {
    assert DepthAt(p, depth, x);
    if x == c {
      assert p[c].value == key && InChain(p, depth, key, key);
    } else {
      ChildChain(p, depth, key, c, p[x].value);
    }
  }

  lemma ChildBelowIsSmaller(p: Parents, depth: map<string, nat>, key: string, c: string)
    requires Depths(p, depth) && c in p && p[c] == Some(key)
    ensures key in p && Below(p, depth, c) < Below(p, depth, key)
  {
    assert DepthAt(p, depth, c);
    forall x | x in Below(p, depth, c) ensures x in Below(p, depth, key) {
      ChildChain(p, depth, key, c, x);
    }
    assert key in Below(p, depth, key);
    if InChain(p, depth, c, key) {
      ChainDepth(p, depth, c, key);
    }
  }

  /** The children map answers for exactly the parent relation, listing each child once. */
  ghost predicate ListsChildren(p: Parents, children: map<string, seq<string>>) {
    && children.Keys == p.Keys
    && (forall key {:trigger children[key]} :: key in children ==> Distinct(children[key]))
    && (forall key, c :: key in children ==> (c in children[key] <==> c in p && p[c] == Some(key)))
  }

  /** The nested recursion: the key, then each child's own list, in order. */
  function Descendants(children: map<string, seq<string>>, key: string, ghost p: Parents, ghost depth: map<string, nat>): seq<string>
    requires Depths(p, depth) && ListsChildren(p, children) && key in children
    decreases Below(p, depth, key), |children[key]| + 1
  {
    [key] + DescendantsOfAll(children, key, children[key], p, depth)
  }

  function DescendantsOfAll(children: map<string, seq<string>>, key: string, ids: seq<string>, ghost p: Parents, ghost depth: map<string, nat>)
    : seq<string>
    requires Depths(p, depth) && ListsChildren(p, children) && key in children
    requires forall c :: c in ids ==> c in children[key]
    decreases Below(p, depth, key), |ids|
  {
    if ids == [] then []
    else
      var init, last := ids[..|ids| - 1], ids[|ids| - 1];
      assert last in ids && forall c :: c in init ==> c in ids;
      ChildBelowIsSmaller(p, depth, key, last);
      DescendantsOfAll(children, key, init, p, depth) + Descendants(children, last, p, depth)
  }

  ghost predicate ListsExactly(s: seq<string>, ids: set<string>) {
    Distinct(s) && forall x :: x in s <==> x in ids
  }

  /** The ids below some listed child. */
  ghost function BelowAny(p: Parents, depth: map<string, nat>, ids: seq<string>): set<string>
    requires Depths(p, depth)
  {
    if ids == [] then {} else BelowAny(p, depth, ids[..|ids| - 1]) + Below(p, depth, ids[|ids| - 1])
  }

  lemma ListsAppend(s: seq<string>, a: set<string>, t: seq<string>, b: set<string>)
    requires ListsExactly(s, a) && ListsExactly(t, b) && a !! b
    ensures ListsExactly(s + t, a + b)
  {
    forall i, j | 0 <= i < j < |s + t| ensures (s + t)[i] != (s + t)[j] {
      if i < |s| <= j {
        assert s[i] in a && t[j - |s|] in b;
      }
    }
  }

  lemma {:induction false} SiblingsDisjoint(p: Parents, depth: map<string, nat>, key: string, ids: seq<string>, c: string)
    requires Depths(p, depth) && c in p && p[c] == Some(key) && c !in ids
    requires forall d :: d in ids ==> d in p && p[d] == Some(key)
    ensures BelowAny(p, depth, ids) !! Below(p, depth, c)
  {
    if ids != [] {
      var d := ids[|ids| - 1];
      assert d in ids;
      SiblingsDisjoint(p, depth, key, ids[..|ids| - 1], c);
      assert DepthAt(p, depth, c) && DepthAt(p, depth, d);
      forall x | x in Below(p, depth, d) && x in Below(p, depth, c) ensures false {
        ChainUnique(p, depth, c, d, x);
      }
    }
  }

  /** descendants lists, once each, exactly the ids whose ancestor chain contains the key. */
  lemma {:induction false} DescendantsAreBelow(children: map<string, seq<string>>, key: string, p: Parents, depth: map<string, nat>)
    requires Depths(p, depth) && ListsChildren(p, children) && key in children
    ensures ListsExactly(Descendants(children, key, p, depth), Below(p, depth, key))
    decreases Below(p, depth, key), |children[key]| + 1
  {
    var ids := children[key];
    AllDescendantsAreBelow(children, key, ids, p, depth);
    forall x ensures x in Below(p, depth, key) <==> x == key || x in BelowAny(p, depth, ids) {
      BelowSplits(children, key, p, depth, x);
    }
    assert Below(p, depth, key) == {key} + BelowAny(p, depth, ids);
    KeyNotBelowChildren(p, depth, key, ids);
    ListsAppend([key], {key}, DescendantsOfAll(children, key, ids, p, depth), BelowAny(p, depth, ids));
  }

  lemma {:induction false} KeyNotBelowChildren(p: Parents, depth: map<string, nat>, key: string, ids: seq<string>)
    requires Depths(p, depth) && forall d :: d in ids ==> d in p && p[d] == Some(key)
    ensures key !in BelowAny(p, depth, ids)
  {
    if ids != [] {
      var d := ids[|ids| - 1];
      assert d in ids;
      KeyNotBelowChildren(p, depth, key, ids[..|ids| - 1]);
      ChildBelowIsSmaller(p, depth, key, d);
      assert DepthAt(p, depth, d);
      if key in Below(p, depth, d) {
        ChainDepth(p, depth, d, key);
      }
    }
  }

  lemma {:induction false} BelowAnyMember(p: Parents, depth: map<string, nat>, ids: seq<string>, x: string)
    requires Depths(p, depth)
    ensures x in BelowAny(p, depth, ids) <==> exists c :: c in ids && x in Below(p, depth, c)
  {
    if ids != [] {
      var init, last := ids[..|ids| - 1], ids[|ids| - 1];
      assert ids == init + [last];
      BelowAnyMember(p, depth, init, x);
    }
  }

  lemma BelowSplits(children: map<string, seq<string>>, key: string, p: Parents, depth: map<string, nat>, x: string)
    requires Depths(p, depth) && ListsChildren(p, children) && key in children
    ensures x in Below(p, depth, key) <==> x == key || x in BelowAny(p, depth, children[key])
  {
    BelowAnyMember(p, depth, children[key], x);
    if x in Below(p, depth, key) && x != key {
      var c := BelowThroughChild(p, depth, key, x);
      assert c in children[key] && x in Below(p, depth, c);
    }
    if c :| c in children[key] && x in Below(p, depth, c) {
      ChildChain(p, depth, key, c, x);
    }
  }

  lemma {:induction false} AllDescendantsAreBelow(children: map<string, seq<string>>, key: string, ids: seq<string>, p: Parents, depth: map<string, nat>)
    requires Depths(p, depth) && ListsChildren(p, children) && key in children
    requires Distinct(ids) && forall c :: c in ids ==> c in children[key]
    ensures ListsExactly(DescendantsOfAll(children, key, ids, p, depth), BelowAny(p, depth, ids))
    decreases Below(p, depth, key), |ids|
  {
    if ids != [] {
      hide InChain, Below, ListsExactly;
      var init, last := ids[..|ids| - 1], ids[|ids| - 1];
      assert ids == init + [last] && last in ids && last !in init;
      assert forall c :: c in init ==> c in ids;
      AllDescendantsAreBelow(children, key, init, p, depth);
      ChildBelowIsSmaller(p, depth, key, last);
      DescendantsAreBelow(children, last, p, depth);
      SiblingsDisjoint(p, depth, key, init, last);
      ListsAppend(DescendantsOfAll(children, key, init, p, depth), BelowAny(p, depth, init),
                  Descendants(children, last, p, depth), Below(p, depth, last));
    }
  }

  // ----- The order of children -----

  ghost predicate IsChild(elements: seq<Element>, key: string, e: Element) {
    e in elements && e.parent == Some(key) && key != ""
  }

  lemma {:induction false} ListedIsChild(elements: seq<Element>, key: string, id: string)
    ensures id in ListedChildren(elements, key) <==> exists e :: IsChild(elements, key, e) && e.id == id
  {
    if elements != [] {
      var init, last := elements[..|elements| - 1], elements[|elements| - 1];
      assert elements == init + [last];
      ListedIsChild(init, key, id);
      if e :| IsChild(init, key, e) && e.id == id { assert IsChild(elements, key, e); }
      if e :| IsChild(elements, key, e) && e.id == id { assert e == last || IsChild(init, key, e); }
      if IsChild(elements, key, last) && last.id == id { assert id in ListedChildren(elements, key); }
    }
  }

  lemma {:induction false} OrderOfMember(elements: seq<Element>, e: Element)
    requires UniqueIds(elements) && e in elements
    ensures OrderAt(Orders(elements), e.id) == e.order
  {
    var init, last := elements[..|elements| - 1], elements[|elements| - 1];
    assert elements == init + [last];
    if e != last {
      var k :| 0 <= k < |init| && init[k] == e;
      assert elements[k].id != elements[|elements| - 1].id;
      OrderOfMember(init, e);
    }
  }

  /** The children of a key are exactly the elements naming it as their parent, the empty id apart,
      and they stand in document order. */
  lemma ChildrenMean(t: Tree, key: string)
    requires UniqueIds(t.elements)
    ensures var children := ChildrenOf(t.elements, key);
            && (forall id :: id in children <==> exists e :: IsChild(t.elements, key, e) && e.id == id)
            && forall i, j, a, b ::
                 (0 <= i < j < |children| && IsChild(t.elements, key, a) && IsChild(t.elements, key, b)
                  && a.id == children[i] && b.id == children[j]) ==> a.order <= b.order
  {
    hide ListedChildren, Orders;
    var orders, listed := Orders(t.elements), ListedChildren(t.elements, key);
    var children := ChildrenOf(t.elements, key);
    assert multiset(children) == multiset(listed) && SortedBy(ByOrder(orders), children);
    forall id ensures id in children <==> exists e :: IsChild(t.elements, key, e) && e.id == id {
      assert id in multiset(children) <==> id in multiset(listed);
      ListedIsChild(t.elements, key, id);
    }
    forall i, j, a, b | 0 <= i < j < |children| && IsChild(t.elements, key, a) && IsChild(t.elements, key, b)
                        && a.id == children[i] && b.id == children[j]
      ensures a.order <= b.order
    {
      assert ByOrder(orders)(children[i], children[j]);
      OrderOfMember(t.elements, a);
      OrderOfMember(t.elements, b);
    }
  }
}
