// merge_pages: replace whole pages of a native tree, keep the rest, and hang every
// kept element under its nearest surviving ancestor.

module PageMerge {
  import opened Common
  import opened Forests
  import opened DocTree

  type Replacements = map<int, Tree>

  /** The elements carrying a given page number, or none, in order. */
  function Select(elements: seq<Element>, page: Option<int>): seq<Element> {
    if elements == [] then []
    else
      var last := elements[|elements| - 1];
      Select(elements[..|elements| - 1], page) + if last.page == page then [last] else []
  }

  function Block(native: seq<Element>, replacements: Replacements, page: int): seq<Element> {
    if page in replacements then replacements[page].elements else Select(native, Some(page))
  }

  function PagesUpTo(native: seq<Element>, replacements: Replacements, n: nat): seq<Element> {
    if n == 0 then [] else PagesUpTo(native, replacements, n - 1) + Block(native, replacements, n)
  }

  /** Pages 1 .. n in order, then the native elements without a page. */
  function Collected(native: seq<Element>, replacements: Replacements, n: nat): seq<Element> {
    PagesUpTo(native, replacements, n) + Select(native, None)
  }

  // ----- The nearest surviving ancestor -----

  ghost function StepsLeft(p: Parents, x: Option<string>): nat
    requires Forest(p)
  {
    if x.Some? && x.value in p then SomeRank(p)[x.value] + 1 else 0
  }

  lemma ParentIsNearerRoot(p: Parents, k: string)
    requires Forest(p) && k in p
    ensures StepsLeft(p, p[k]) < StepsLeft(p, Some(k))
  {
    assert RankedAt(p, SomeRank(p), k);
  }

  ghost function Nearest(p: Parents, kept: set<string>, x: Option<string>): (r: Option<string>)
    requires Forest(p)
    ensures r.Some? ==> r.value in kept
    decreases StepsLeft(p, x)
  {
    if x.None? || x.value in kept then x
    else if x.value !in p then None
    else
      ParentIsNearerRoot(p, x.value);
      Nearest(p, kept, p[x.value])
  }

  /** n steps up from x. */
  ghost function Climb(p: Parents, x: Option<string>, n: nat): Option<string>
    decreases n
  {
    if n == 0 || x.None? then x
    else if x.value in p then Climb(p, p[x.value], n - 1) else None
  }

  ghost predicate Lost(p: Parents, kept: set<string>, x: Option<string>, m: nat) {
    Climb(p, x, m).Some? && Climb(p, x, m).value !in kept
  }

  /** Nearest is the first survivor on the way up, or none when every ancestor was dropped. */
  lemma {:induction false} NearestIsFirstSurvivor(p: Parents, kept: set<string>, x: Option<string>) returns (n: nat)
    requires Forest(p)
    ensures Nearest(p, kept, x) == Climb(p, x, n)
    ensures forall m {:trigger Lost(p, kept, x, m)} :: 0 <= m < n ==> Lost(p, kept, x, m)
    decreases StepsLeft(p, x)
  {
    if x.None? || x.value in kept {
      n := 0;
    } else if x.value !in p {
      n := 1;
      assert Lost(p, kept, x, 0);
    } else {
      ParentIsNearerRoot(p, x.value);
      var k := NearestIsFirstSurvivor(p, kept, p[x.value]);
      n := k + 1;
      forall m | 0 <= m < n ensures Lost(p, kept, x, m) {
        assert m == 0 || Lost(p, kept, p[x.value], m - 1);
      }
    }
  }

  method NearestKept(ancestors: Parents, kept: set<string>, start: Option<string>) returns (parent: Option<string>)
    requires Forest(ancestors)
    ensures parent == Nearest(ancestors, kept, start)
  {
    parent := start;
    while parent.Some? && parent.value !in kept
      invariant Nearest(ancestors, kept, parent) == Nearest(ancestors, kept, start)
      decreases StepsLeft(ancestors, parent), parent.Some?
    {
      if parent.value in ancestors {
        ParentIsNearerRoot(ancestors, parent.value);
        parent := ancestors[parent.value];
      } else {
        parent := None;
      }
    }
  }

  // ----- The merge -----

  ghost function Merged(native: seq<Element>, replacements: Replacements, n: nat): (r: seq<Element>)
    requires Forest(ParentsOf(native))
    ensures |r| == |Collected(native, replacements, n)|
  {
    var collected := Collected(native, replacements, n);
    var kept := IdSet(collected);
    seq(|collected|, i requires 0 <= i < |collected| =>
      collected[i].(order := i, parent := Nearest(ParentsOf(native), kept, collected[i].parent)))
  }

  method SelectElements(elements: seq<Element>, page: Option<int>) returns (r: seq<Element>)
    ensures r == Select(elements, page)
  {
    r := [];
    for i := 0 to |elements|
      invariant r == Select(elements[..i], page)
    {
      assert elements[..i + 1][..i] == elements[..i];
      if elements[i].page == page {
        r := r + [elements[i]];
      }
    }
    assert elements[..|elements|] == elements;
  }

  method CollectPages(native: seq<Element>, replacements: Replacements, pageCount: nat) returns (output: seq<Element>)
    ensures output == Collected(native, replacements, pageCount)
  {
    output := [];
    for page := 1 to pageCount + 1
      invariant output == PagesUpTo(native, replacements, page - 1)
    {
      if page in replacements {
        output := output + replacements[page].elements;
      } else {
        var own := SelectElements(native, Some(page));
        output := output + own;
      }
    }
    var pageless := SelectElements(native, None);
    output := output + pageless;
  }

  method MergePages(sourceId: string, native: Tree, replacements: Replacements, pageCount: nat)
    returns (r: Result<Tree, ElementError>)
    requires Forest(ParentsOf(native.elements))
    ensures r.Ok? <==> Buildable(Merged(native.elements, replacements, pageCount))
    ensures r.Ok? ==>
      var merged := Merged(native.elements, replacements, pageCount);
      r.value == Tree(sourceId, Joined(merged), Rebased(merged)) && ValidTree(r.value)
  {
    var output := CollectPages(native.elements, replacements, pageCount);
    var kept := IdSet(output);
    var ancestors := ParentsOf(native.elements);
    var result: seq<Element> := [];
    for i := 0 to |output|
      invariant |result| == i
      invariant forall k :: 0 <= k < i ==>
        result[k] == output[k].(order := k, parent := Nearest(ancestors, kept, output[k].parent))
    {
      var parent := NearestKept(ancestors, kept, output[i].parent);
      result := result + [output[i].(order := i, parent := parent)];
    }
    assert result == Merged(native.elements, replacements, pageCount);
    r := BuildTree(sourceId, result);
  }

  // ----- Merging valid trees gives a valid tree -----

  ghost predicate InRange(replacements: Replacements, n: nat, page: int) {
    page in replacements && 1 <= page <= n
  }

  /** Every in-range replacement is valid, and no id is shared between trees. */
  ghost predicate Mergeable(native: Tree, replacements: Replacements, n: nat) {
    && ValidTree(native)
    && (forall p {:trigger InRange(replacements, n, p)} :: InRange(replacements, n, p) ==> ValidTree(replacements[p]))
    && (forall p {:trigger InRange(replacements, n, p)} :: InRange(replacements, n, p) ==> IdSet(native.elements) !! IdSet(replacements[p].elements))
    && (forall p, q {:trigger InRange(replacements, n, p), InRange(replacements, n, q)} ::
         InRange(replacements, n, p) && InRange(replacements, n, q) && p != q ==>
         IdSet(replacements[p].elements) !! IdSet(replacements[q].elements))
  }

  lemma {:induction false} IdsAppend(a: seq<Element>, b: seq<Element>)
    ensures IdSet(a + b) == IdSet(a) + IdSet(b)
  {
    if b == [] {
      assert a + b == a;
    } else {
      IdsAppend(a, b[..|b| - 1]);
      assert (a + b)[..|a + b| - 1] == a + b[..|b| - 1];
    }
  }

  lemma UniqueAppend(a: seq<Element>, b: seq<Element>)
    requires UniqueIds(a) && UniqueIds(b) && IdSet(a) !! IdSet(b)
    ensures UniqueIds(a + b)
  {
    IdsAre(a);
    IdsAre(b);
  }

  lemma {:induction false} SelectMembers(elements: seq<Element>, page: Option<int>, e: Element)
    requires e in Select(elements, page)
    ensures e in elements && e.page == page
  {
    var init, last := elements[..|elements| - 1], elements[|elements| - 1];
    assert elements == init + [last];
    if e in Select(init, page) {
      SelectMembers(init, page, e);
    }
  }

  lemma SingleId(e: Element)
    ensures IdSet([e]) == {e.id}
  {
    assert [e][..0] == [];
  }

  lemma {:induction false} SelectUnique(elements: seq<Element>, page: Option<int>)
    requires UniqueIds(elements)
    ensures UniqueIds(Select(elements, page)) && IdSet(Select(elements, page)) <= IdSet(elements)
  {
    if elements != [] {
      var init, last := elements[..|elements| - 1], elements[|elements| - 1];
      assert elements == init + [last];
      LastIsNew(init, last);
      SelectUnique(init, page);
      if last.page == page {
        SingleId(last);
        IdsAppend(Select(init, page), [last]);
        UniqueAppend(Select(init, page), [last]);
      } else {
        assert Select(elements, page) == Select(init, page);
      }
    }
  }

  lemma SameIdSameElement(elements: seq<Element>, e: Element, f: Element)
    requires UniqueIds(elements) && e in elements && f in elements && e.id == f.id
    ensures e == f
  {
    var i :| 0 <= i < |elements| && elements[i] == e;
    var j :| 0 <= j < |elements| && elements[j] == f;
    assert !(i < j) && !(j < i);
  }

  /** The elements of one page are listed, each once and in their order. */
  ghost predicate ListsPage(elements: seq<Element>, page: Option<int>, listed: seq<Element>, ks: seq<nat>) {
    && |ks| == |listed| && (forall i, j :: 0 <= i < j < |ks| ==> ks[i] < ks[j])
    && (forall k: nat :: k in ks <==> k < |elements| && elements[k].page == page)
    && forall i :: 0 <= i < |ks| ==> ks[i] < |elements| && listed[i] == elements[ks[i]]
  }

  lemma NoneListed(page: Option<int>)
    ensures ListsPage([], page, [], [])
  {
  }

  lemma ListedGrow(elements: seq<Element>, page: Option<int>, listed: seq<Element>, ks: seq<nat>)
    requires elements != [] && ListsPage(elements[..|elements| - 1], page, listed, ks)
    ensures var n, e := |elements| - 1, elements[|elements| - 1];
            if e.page == page then ListsPage(elements, page, listed + [e], ks + [n]) else ListsPage(elements, page, listed, ks)
  {
    var n := |elements| - 1;
    forall i | 0 <= i < |ks| ensures ks[i] < n && ks[i] in ks {
      assert ks[i] in ks;
    }
  }

  lemma {:induction false} SelectMeans(elements: seq<Element>, page: Option<int>)
    ensures exists ks: seq<nat> :: ListsPage(elements, page, Select(elements, page), ks)
  {
    hide ListsPage;
    if elements == [] {
      NoneListed(page);
      assert ListsPage(elements, page, Select(elements, page), []);
    } else {
      var n, last := |elements| - 1, elements[|elements| - 1];
      SelectMeans(elements[..n], page);
      var ks: seq<nat> :| ListsPage(elements[..n], page, Select(elements[..n], page), ks);
      ListedGrow(elements, page, Select(elements[..n], page), ks);
      assert Select(elements[..n], page) + [] == Select(elements[..n], page);
      assert ListsPage(elements, page, Select(elements, page), if last.page == page then ks + [n] else ks);
    }
  }

  lemma SelectionsDisjoint(elements: seq<Element>, a: Option<int>, b: Option<int>)
    requires UniqueIds(elements) && a != b
    ensures IdSet(Select(elements, a)) !! IdSet(Select(elements, b))
  {
    forall id | id in IdSet(Select(elements, a)) && id in IdSet(Select(elements, b)) ensures false {
      var i := IndexOfId(Select(elements, a), id);
      var j := IndexOfId(Select(elements, b), id);
      var e, f := Select(elements, a)[i], Select(elements, b)[j];
      SelectMembers(elements, a, e);
      SelectMembers(elements, b, f);
      SameIdSameElement(elements, e, f);
    }
  }

  ghost function BlockIds(native: seq<Element>, replacements: Replacements, page: int): set<string> {
    IdSet(Block(native, replacements, page))
  }

  ghost function PageIds(native: seq<Element>, replacements: Replacements, n: nat): set<string> {
    if n == 0 then {} else PageIds(native, replacements, n - 1) + BlockIds(native, replacements, n)
  }

  lemma {:induction false} PageIdsAre(native: seq<Element>, replacements: Replacements, n: nat)
    ensures IdSet(PagesUpTo(native, replacements, n)) == PageIds(native, replacements, n)
  {
    if n == 0 {
      assert IdSet([]) == {};
    } else {
      hide IdSet, Block;
      var before, block := PagesUpTo(native, replacements, n - 1), Block(native, replacements, n);
      assert PagesUpTo(native, replacements, n) == before + block;
      PageIdsAre(native, replacements, n - 1);
      hide PagesUpTo;
      IdsAppend(before, block);
    }
  }

  lemma BlocksDisjoint(native: Tree, replacements: Replacements, n: nat, p: int, q: int)
    requires Mergeable(native, replacements, n) && 1 <= p < q <= n
    ensures BlockIds(native.elements, replacements, p) !! BlockIds(native.elements, replacements, q)
  {
    assert p in replacements ==> InRange(replacements, n, p);
    assert q in replacements ==> InRange(replacements, n, q);
    SelectUnique(native.elements, Some(p));
    SelectUnique(native.elements, Some(q));
    SelectionsDisjoint(native.elements, Some(p), Some(q));
  }

  lemma BlockAvoidsPageless(native: Tree, replacements: Replacements, n: nat, p: int)
    requires Mergeable(native, replacements, n) && 1 <= p <= n
    ensures BlockIds(native.elements, replacements, p) !! IdSet(Select(native.elements, None))
  {
    assert p in replacements ==> InRange(replacements, n, p);
    SelectUnique(native.elements, None);
    SelectionsDisjoint(native.elements, Some(p), None);
  }

  lemma {:induction false} PagesAvoid(native: seq<Element>, replacements: Replacements, n: nat, s: set<string>)
    requires forall p :: 1 <= p <= n ==> BlockIds(native, replacements, p) !! s
    ensures PageIds(native, replacements, n) !! s
  {
    if n != 0 {
      PagesAvoid(native, replacements, n - 1, s);
    }
  }

  lemma BlockUnique(native: Tree, replacements: Replacements, n: nat, p: int)
    requires Mergeable(native, replacements, n) && 1 <= p <= n
    ensures UniqueIds(Block(native.elements, replacements, p))
  {
    assert p in replacements ==> InRange(replacements, n, p);
    SelectUnique(native.elements, Some(p));
  }

  lemma EarlierBlocksAvoid(native: Tree, replacements: Replacements, n: nat, m: nat)
    requires Mergeable(native, replacements, n) && m < n
    ensures forall p :: 1 <= p <= m ==> BlockIds(native.elements, replacements, p) !! BlockIds(native.elements, replacements, m + 1)
  {
    forall p | 1 <= p <= m ensures BlockIds(native.elements, replacements, p) !! BlockIds(native.elements, replacements, m + 1) {
      BlocksDisjoint(native, replacements, n, p, m + 1);
    }
  }

  lemma PagesAvoidIds(native: seq<Element>, replacements: Replacements, n: nat, s: set<string>)
    requires forall p :: 1 <= p <= n ==> BlockIds(native, replacements, p) !! s
    ensures IdSet(PagesUpTo(native, replacements, n)) !! s
  {
    PagesAvoid(native, replacements, n, s);
    PageIdsAre(native, replacements, n);
  }

  lemma AddBlock(native: seq<Element>, replacements: Replacements, m: nat)
    requires m >= 1 && UniqueIds(PagesUpTo(native, replacements, m - 1)) && UniqueIds(Block(native, replacements, m))
    requires IdSet(PagesUpTo(native, replacements, m - 1)) !! IdSet(Block(native, replacements, m))
    ensures UniqueIds(PagesUpTo(native, replacements, m))
  {
    UniqueAppend(PagesUpTo(native, replacements, m - 1), Block(native, replacements, m));
  }

  lemma {:induction false} PagesUnique(native: Tree, replacements: Replacements, n: nat, m: nat)
    requires Mergeable(native, replacements, n) && m <= n
    ensures UniqueIds(PagesUpTo(native.elements, replacements, m))
  {
    hide IdSet;
    hide Block;
    if m != 0 {
      PagesUnique(native, replacements, n, m - 1);
      EarlierBlocksAvoid(native, replacements, n, m - 1);
      PagesAvoidIds(native.elements, replacements, m - 1, BlockIds(native.elements, replacements, m));
      BlockUnique(native, replacements, n, m);
      AddBlock(native.elements, replacements, m);
    }
  }

  lemma CollectedUnique(native: Tree, replacements: Replacements, n: nat)
    requires Mergeable(native, replacements, n)
    ensures UniqueIds(Collected(native.elements, replacements, n))
  {
    var ids := IdSet(Select(native.elements, None));
    forall p | 1 <= p <= n ensures BlockIds(native.elements, replacements, p) !! ids {
      BlockAvoidsPageless(native, replacements, n, p);
    }
    PagesAvoidIds(native.elements, replacements, n, ids);
    PagesUnique(native, replacements, n, n);
    SelectUnique(native.elements, None);
    UniqueAppend(PagesUpTo(native.elements, replacements, n), Select(native.elements, None));
  }

  /** Each collected element comes from the native tree or from one in-range replacement. */
  ghost predicate FromNative(native: Tree, e: Element) {
    e in native.elements
  }

  ghost predicate FromPage(replacements: Replacements, n: nat, p: int, e: Element) {
    InRange(replacements, n, p) && e in replacements[p].elements
  }

  lemma {:induction false} PagesOrigin(native: Tree, replacements: Replacements, n: nat, m: nat, e: Element)
    requires m <= n && e in PagesUpTo(native.elements, replacements, m)
    ensures FromNative(native, e) || exists p :: FromPage(replacements, n, p, e)
  {
    hide Select;
    if m != 0 {
      var before, block := PagesUpTo(native.elements, replacements, m - 1), Block(native.elements, replacements, m);
      assert PagesUpTo(native.elements, replacements, m) == before + block;
      if e in before {
        PagesOrigin(native, replacements, n, m - 1, e);
      } else if m in replacements {
        assert FromPage(replacements, n, m, e);
      } else {
        SelectMembers(native.elements, Some(m), e);
      }
    }
  }

  lemma Origin(native: Tree, replacements: Replacements, n: nat, e: Element)
    requires e in Collected(native.elements, replacements, n)
    ensures FromNative(native, e) || exists p :: FromPage(replacements, n, p, e)
  {
    if e in PagesUpTo(native.elements, replacements, n) {
      PagesOrigin(native, replacements, n, n, e);
    } else {
      SelectMembers(native.elements, None, e);
    }
  }

  /** All parents, native and replaced, as one map. */
  ghost function AllParents(native: Tree, replacements: Replacements, m: nat): Parents {
    if m == 0 then ParentsOf(native.elements)
    else AllParents(native, replacements, m - 1) + if m in replacements then ParentsOf(replacements[m].elements) else map[]
  }

  lemma {:induction false} AllParentsForest(native: Tree, replacements: Replacements, n: nat, m: nat)
    requires Mergeable(native, replacements, n) && m <= n
    ensures Forest(AllParents(native, replacements, m))
    ensures forall p :: m < p <= n && p in replacements ==> AllParents(native, replacements, m).Keys !! IdSet(replacements[p].elements)
    ensures forall k :: k in ParentsOf(native.elements) ==>
              k in AllParents(native, replacements, m) && AllParents(native, replacements, m)[k] == ParentsOf(native.elements)[k]
  {
    if m == 0 {
      ParentsKeys(native.elements);
      forall p | 0 < p <= n && p in replacements ensures AllParents(native, replacements, 0).Keys !! IdSet(replacements[p].elements) {
        assert InRange(replacements, n, p);
      }
    } else {
      AllParentsForest(native, replacements, n, m - 1);
      if m in replacements {
        AddPage(native, replacements, n, m);
      } else {
        var before := AllParents(native, replacements, m - 1);
        assert before + map[] == before;
      }
    }
  }

  lemma AddPage(native: Tree, replacements: Replacements, n: nat, m: nat)
    requires Mergeable(native, replacements, n) && 1 <= m <= n && m in replacements
    requires Forest(AllParents(native, replacements, m - 1))
    requires forall p :: m - 1 < p <= n && p in replacements ==> AllParents(native, replacements, m - 1).Keys !! IdSet(replacements[p].elements)
    ensures Forest(AllParents(native, replacements, m))
    ensures forall p :: m < p <= n && p in replacements ==> AllParents(native, replacements, m).Keys !! IdSet(replacements[p].elements)
    ensures AllParents(native, replacements, m - 1).Keys !! ParentsOf(replacements[m].elements).Keys
  {
    assert InRange(replacements, n, m);
    var before, added := AllParents(native, replacements, m - 1), ParentsOf(replacements[m].elements);
    ParentsKeys(replacements[m].elements);
    ForestUnion(before, added);
    forall p | m < p <= n && p in replacements ensures AllParents(native, replacements, m).Keys !! IdSet(replacements[p].elements) {
      assert InRange(replacements, n, p);
    }
  }

  lemma {:induction false} AllParentsOfPage(native: Tree, replacements: Replacements, n: nat, m: nat, p: nat, k: string)
    requires Mergeable(native, replacements, n) && 1 <= p <= m <= n && p in replacements && k in IdSet(replacements[p].elements)
    ensures k in AllParents(native, replacements, m)
    ensures k in ParentsOf(replacements[p].elements) && AllParents(native, replacements, m)[k] == ParentsOf(replacements[p].elements)[k]
  {
    ParentsKeys(replacements[p].elements);
    if p != m {
      AllParentsOfPage(native, replacements, n, m - 1, p, k);
      if m in replacements {
        ParentsKeys(replacements[m].elements);
        assert InRange(replacements, n, m) && InRange(replacements, n, p);
      }
    }
  }

  /** Climbing to the nearest survivor never gains rank. */
  lemma {:induction false} NearestFalls(p: Parents, all: Parents, rank: map<string, nat>, kept: set<string>, x: Option<string>)
    requires Forest(p) && Ranks(all, rank) && kept <= all.Keys
    requires forall k :: k in p ==> k in all && all[k] == p[k]
    requires x.Some? && x.value in all
    ensures Nearest(p, kept, x).Some? ==> Nearest(p, kept, x).value in rank && rank[Nearest(p, kept, x).value] <= rank[x.value]
    decreases StepsLeft(p, x)
  {
    if x.value !in kept && x.value in p {
      ParentIsNearerRoot(p, x.value);
      assert RankedAt(all, rank, x.value);
      if p[x.value].Some? {
        NearestFalls(p, all, rank, kept, p[x.value]);
      }
    }
  }

  lemma MergedRanked(native: Tree, replacements: Replacements, n: nat, rank: map<string, nat>, i: nat)
    requires Mergeable(native, replacements, n) && Ranks(AllParents(native, replacements, n), rank)
    requires i < |Merged(native.elements, replacements, n)|
    ensures var e := Merged(native.elements, replacements, n)[i];
            && e.id in rank
            && (e.parent.Some? ==> e.parent.value in rank && rank[e.parent.value] < rank[e.id])
            && Acceptable(e, IdSet(Collected(native.elements, replacements, n)))
  {
    var collected := Collected(native.elements, replacements, n);
    var kept, all, e := IdSet(collected), AllParents(native, replacements, n), collected[i];
    AllParentsForest(native, replacements, n, n);
    KeptAreKnown(native, replacements, n);
    Origin(native, replacements, n, e);
    if FromNative(native, e) {
      NativeParent(native, replacements, n, e);
    } else {
      var p :| FromPage(replacements, n, p, e);
      PageParent(native, replacements, n, p, e);
    }
    assert RankedAt(all, rank, e.id);
    if e.parent.Some? {
      NearestFalls(ParentsOf(native.elements), all, rank, kept, e.parent);
    }
  }

  lemma NativeParent(native: Tree, replacements: Replacements, n: nat, e: Element)
    requires Mergeable(native, replacements, n) && FromNative(native, e)
    ensures e.id in AllParents(native, replacements, n) && AllParents(native, replacements, n)[e.id] == e.parent
    ensures e.kind in KINDS && (e.page.Some? ==> e.page.value >= 1)
  {
    AllParentsForest(native, replacements, n, n);
    var i :| 0 <= i < |native.elements| && native.elements[i] == e;
    ParentsAt(native.elements, i);
    assert Acceptable(native.elements[i], IdSet(native.elements));
  }

  lemma PageParent(native: Tree, replacements: Replacements, n: nat, p: int, e: Element)
    requires Mergeable(native, replacements, n) && FromPage(replacements, n, p, e)
    ensures e.id in AllParents(native, replacements, n) && AllParents(native, replacements, n)[e.id] == e.parent
    ensures e.kind in KINDS && (e.page.Some? ==> e.page.value >= 1)
  {
    var elements := replacements[p].elements;
    var i :| 0 <= i < |elements| && elements[i] == e;
    IdsAre(elements);
    AllParentsOfPage(native, replacements, n, n, p, e.id);
    ParentsAt(elements, i);
    assert Acceptable(elements[i], IdSet(elements));
  }

  lemma KeptAreKnown(native: Tree, replacements: Replacements, n: nat)
    requires Mergeable(native, replacements, n)
    ensures IdSet(Collected(native.elements, replacements, n)) <= AllParents(native, replacements, n).Keys
  {
    var collected := Collected(native.elements, replacements, n);
    forall id | id in IdSet(collected) ensures id in AllParents(native, replacements, n) {
      var i := IndexOfId(collected, id);
      var e := collected[i];
      Origin(native, replacements, n, e);
      if FromNative(native, e) {
        NativeParent(native, replacements, n, e);
      } else {
        var p :| FromPage(replacements, n, p, e);
        PageParent(native, replacements, n, p, e);
      }
    }
  }

  lemma {:induction false} PageIdsContain(native: seq<Element>, replacements: Replacements, n: nat, p: int)
    requires 1 <= p <= n
    ensures BlockIds(native, replacements, p) <= PageIds(native, replacements, n)
  {
    hide BlockIds;
    if p != n {
      PageIdsContain(native, replacements, n - 1, p);
    }
  }

  /** Elements that replace a page keep the parent their own tree gave them. */
  lemma ReplacementKeepsParent(native: Tree, replacements: Replacements, n: nat, p: int, i: nat)
    requires Mergeable(native, replacements, n) && i < |Collected(native.elements, replacements, n)|
    requires FromPage(replacements, n, p, Collected(native.elements, replacements, n)[i])
    ensures Merged(native.elements, replacements, n)[i].parent == Collected(native.elements, replacements, n)[i].parent
  {
    var e, elements := Collected(native.elements, replacements, n)[i], replacements[p].elements;
    var k :| 0 <= k < |elements| && elements[k] == e;
    assert Acceptable(elements[k], IdSet(elements));
    PageIdsContain(native.elements, replacements, n, p);
    PageIdsAre(native.elements, replacements, n);
    IdsAppend(PagesUpTo(native.elements, replacements, n), Select(native.elements, None));
  }

  /** Merging a valid native tree with valid, id-disjoint replacements always gives a valid tree. */
  lemma MergeIsBuildable(native: Tree, replacements: Replacements, n: nat)
    requires Mergeable(native, replacements, n)
    ensures Buildable(Merged(native.elements, replacements, n))
  {
    var collected, merged := Collected(native.elements, replacements, n), Merged(native.elements, replacements, n);
    CollectedUnique(native, replacements, n);
    AllParentsForest(native, replacements, n, n);
    var rank := SomeRank(AllParents(native, replacements, n));
    SameIds(merged, collected);
    forall i | 0 <= i < |merged| ensures Acceptable(merged[i], IdSet(merged)) {
      MergedRanked(native, replacements, n, rank, i);
    }
    MergedForest(native, replacements, n, rank);
  }

  lemma {:induction false} SameIds(a: seq<Element>, b: seq<Element>)
    requires |a| == |b| && forall i :: 0 <= i < |a| ==> a[i].id == b[i].id
    ensures IdSet(a) == IdSet(b) && (UniqueIds(b) ==> UniqueIds(a))
  {
    if a != [] {
      SameIds(a[..|a| - 1], b[..|b| - 1]);
    }
  }

  lemma MergedForest(native: Tree, replacements: Replacements, n: nat, rank: map<string, nat>)
    requires Mergeable(native, replacements, n) && Ranks(AllParents(native, replacements, n), rank)
    ensures Forest(ParentsOf(Merged(native.elements, replacements, n)))
  {
    var merged := Merged(native.elements, replacements, n);
    var parents := ParentsOf(merged);
    CollectedUnique(native, replacements, n);
    KeptAreKnown(native, replacements, n);
    SameIds(merged, Collected(native.elements, replacements, n));
    ParentsKeys(merged);
    var own := map k | k in parents :: rank[k];
    forall k | k in parents ensures RankedAt(parents, own, k) {
      var i := IndexOfId(merged, k);
      ParentsAt(merged, i);
      MergedRanked(native, replacements, n, rank, i);
    }
    assert Ranks(parents, own);
  }

  // ----- What each page holds -----

  lemma {:induction false} SelectAppend(a: seq<Element>, b: seq<Element>, page: Option<int>)
    ensures Select(a + b, page) == Select(a, page) + Select(b, page)
  {
    if b == [] {
      assert a + b == a;
    } else {
      SelectAppend(a, b[..|b| - 1], page);
      assert (a + b)[..|a + b| - 1] == a + b[..|b| - 1];
    }
  }

  lemma {:induction false} SelectUniform(elements: seq<Element>, own: Option<int>, page: Option<int>)
    requires forall e :: e in elements ==> e.page == own
    ensures Select(elements, page) == if own == page then elements else []
  {
    if elements != [] {
      var init, last := elements[..|elements| - 1], elements[|elements| - 1];
      assert elements == init + [last];
      assert last in elements && forall e :: e in init ==> e in elements;
      SelectUniform(init, own, page);
    }
  }

  ghost predicate OwnPage(elements: seq<Element>, page: int) {
    forall e :: e in elements ==> e.page == Some(page)
  }

  /** When replacements carry their own page number, each page's number selects its block. */
  lemma {:induction false} BlocksByNumber(native: seq<Element>, replacements: Replacements, n: nat, p: int)
    requires 1 <= p
    requires forall q :: InRange(replacements, n, q) ==> OwnPage(replacements[q].elements, q)
    ensures Select(PagesUpTo(native, replacements, n), Some(p)) == if p <= n then Block(native, replacements, p) else []
  {
    hide Block;
    if n != 0 {
      forall q | InRange(replacements, n - 1, q) ensures OwnPage(replacements[q].elements, q) {
        assert InRange(replacements, n, q);
      }
      BlocksByNumber(native, replacements, n - 1, p);
      BlockOnPage(native, replacements, n, p);
      SelectAddsBlock(native, replacements, n, p);
    }
  }

  lemma SelectAddsBlock(native: seq<Element>, replacements: Replacements, n: nat, p: int)
    requires n >= 1
    ensures Select(PagesUpTo(native, replacements, n), Some(p)) ==
            Select(PagesUpTo(native, replacements, n - 1), Some(p)) + Select(Block(native, replacements, n), Some(p))
  {
    SelectAppend(PagesUpTo(native, replacements, n - 1), Block(native, replacements, n), Some(p));
  }

  lemma BlockOnPage(native: seq<Element>, replacements: Replacements, n: nat, p: int)
    requires n >= 1
    requires forall q :: InRange(replacements, n, q) ==> OwnPage(replacements[q].elements, q)
    ensures Select(Block(native, replacements, n), Some(p)) == if p == n then Block(native, replacements, n) else []
  {
    var block := Block(native, replacements, n);
    forall e | e in block ensures e.page == Some(n) {
      if n in replacements {
        assert InRange(replacements, n, n);
      } else {
        SelectMembers(native, Some(n), e);
      }
    }
    SelectUniform(block, Some(n), Some(p));
  }

  // ----- What each page of the merge holds -----

  /** Elements as the merge returns them from a position on: new order numbers, and each parent
      replaced by its nearest survivor. */
  ghost function Moved(native: seq<Element>, kept: set<string>, elements: seq<Element>, from: nat): (r: seq<Element>)
    requires Forest(ParentsOf(native))
    ensures |r| == |elements|
  {
    seq(|elements|, i requires 0 <= i < |elements| =>
      elements[i].(order := from + i, parent := Nearest(ParentsOf(native), kept, elements[i].parent)))
  }

  ghost function Kept(native: seq<Element>, replacements: Replacements, n: nat): set<string> {
    IdSet(Collected(native, replacements, n))
  }

  lemma {:induction false} PagesPrefix(native: seq<Element>, replacements: Replacements, p: nat, n: nat)
    requires p <= n
    ensures PagesUpTo(native, replacements, p) <= PagesUpTo(native, replacements, n)
  {
    if p < n {
      PagesPrefix(native, replacements, p, n - 1);
    }
  }

  lemma MovedParts(native: seq<Element>, kept: set<string>, a: seq<Element>, b: seq<Element>, from: nat)
    requires Forest(ParentsOf(native))
    ensures Moved(native, kept, a + b, from) == Moved(native, kept, a, from) + Moved(native, kept, b, from + |a|)
  {
  }

  /** The pages after page p. */
  function Tail(native: seq<Element>, replacements: Replacements, n: nat, p: nat): seq<Element>
    requires p <= n
  {
    PagesPrefix(native, replacements, p, n);
    PagesUpTo(native, replacements, n)[|PagesUpTo(native, replacements, p)|..]
  }

  /** What follows page p among the collected elements. */
  function After(native: seq<Element>, replacements: Replacements, n: nat, p: nat): seq<Element>
    requires p <= n
  {
    Tail(native, replacements, n, p) + Select(native, None)
  }

  lemma PagesInTwo(native: seq<Element>, replacements: Replacements, n: nat, p: nat)
    requires p <= n
    ensures PagesUpTo(native, replacements, n) == PagesUpTo(native, replacements, p) + Tail(native, replacements, n, p)
  {
    PagesPrefix(native, replacements, p, n);
  }

  lemma CollectedInThree(native: seq<Element>, replacements: Replacements, n: nat, p: nat)
    requires 1 <= p <= n
    ensures Collected(native, replacements, n) ==
            PagesUpTo(native, replacements, p - 1) + Block(native, replacements, p) + After(native, replacements, n, p)
  {
    hide Tail, Select, Block;
    PagesInTwo(native, replacements, n, p);
    assert PagesUpTo(native, replacements, p) == PagesUpTo(native, replacements, p - 1) + Block(native, replacements, p);
  }

  lemma MergedIsMoved(native: seq<Element>, replacements: Replacements, n: nat)
    requires Forest(ParentsOf(native))
    ensures Merged(native, replacements, n) == Moved(native, Kept(native, replacements, n), Collected(native, replacements, n), 0)
  {
    hide Collected, IdSet, Nearest;
  }

  /** The merge before, on and after one page. */
  lemma MergedInThree(native: seq<Element>, replacements: Replacements, n: nat, p: nat)
    requires Forest(ParentsOf(native)) && 1 <= p <= n
    ensures var kept := Kept(native, replacements, n);
            var before, block := PagesUpTo(native, replacements, p - 1), Block(native, replacements, p);
            Merged(native, replacements, n) ==
            Moved(native, kept, before, 0) + Moved(native, kept, block, |before|)
            + Moved(native, kept, After(native, replacements, n, p), |before| + |block|)
  {
    hide PagesUpTo, Block, Kept, Merged, Moved, Collected, After;
    var kept := Kept(native, replacements, n);
    var before, block, rest := PagesUpTo(native, replacements, p - 1), Block(native, replacements, p), After(native, replacements, n, p);
    CollectedInThree(native, replacements, n, p);
    MergedIsMoved(native, replacements, n);
    MovedParts(native, kept, before + block, rest, 0);
    MovedParts(native, kept, before, block, 0);
    assert 0 + |before| == |before| && 0 + |before + block| == |before| + |block|;
  }

  /** The merge is, page by page in order, the moved block of each page, and then the moved native
      elements without a page; no page number is assumed of a replacement's elements. */
  lemma PageContents(native: seq<Element>, replacements: Replacements, n: nat, p: nat)
    requires Forest(ParentsOf(native)) && 1 <= p <= n
    ensures var kept := Kept(native, replacements, n);
            var merged := Merged(native, replacements, n);
            var start, end, last := |PagesUpTo(native, replacements, p - 1)|, |PagesUpTo(native, replacements, p)|, |PagesUpTo(native, replacements, n)|;
            && start <= end <= last <= |merged|
            && merged[start..end] == Moved(native, kept, Block(native, replacements, p), start)
            && merged[last..] == Moved(native, kept, Select(native, None), last)
  {
    hide Block, Select, Kept, After, Tail, Merged, Nearest;
    PagesInTwo(native, replacements, n, p);
    MergedInThree(native, replacements, n, p);
    assert PagesUpTo(native, replacements, p) == PagesUpTo(native, replacements, p - 1) + Block(native, replacements, p);
    hide PagesUpTo;
    MergedIsMoved(native, replacements, n);
    MovedParts(native, Kept(native, replacements, n), PagesUpTo(native, replacements, n), Select(native, None), 0);
  }

  lemma {:induction false} SelectsNothing(elements: seq<Element>, page: Option<int>)
    ensures Select(elements, page) == [] <==> forall e :: e in elements ==> e.page != page
  {
    if elements != [] {
      var init, last := elements[..|elements| - 1], elements[|elements| - 1];
      assert elements == init + [last];
      SelectsNothing(init, page);
    }
  }

  lemma MovedSelectsNothing(native: seq<Element>, kept: set<string>, elements: seq<Element>, from: nat, page: Option<int>)
    requires Forest(ParentsOf(native)) && Select(elements, page) == []
    ensures Select(Moved(native, kept, elements, from), page) == []
  {
    SelectsNothing(elements, page);
    SelectsNothing(Moved(native, kept, elements, from), page);
  }

  /** When replacements carry their own page number, selecting an in-range page of the merge by its
      number gives exactly its moved block. */
  lemma PageByNumber(native: seq<Element>, replacements: Replacements, n: nat, p: nat)
    requires Forest(ParentsOf(native)) && 1 <= p <= n
    requires forall q :: InRange(replacements, n, q) ==> OwnPage(replacements[q].elements, q)
    ensures Select(Merged(native, replacements, n), Some(p)) ==
            Moved(native, Kept(native, replacements, n), Block(native, replacements, p), |PagesUpTo(native, replacements, p - 1)|)
  {
    hide PagesUpTo, Block, Nearest, IdSet, Select, After, Kept, Merged, Moved, InRange, OwnPage;
    var kept, page := Kept(native, replacements, n), Some(p as int);
    var before, block, rest := PagesUpTo(native, replacements, p - 1), Block(native, replacements, p), After(native, replacements, n, p);
    NumberedParts(native, replacements, n, p);
    MergedInThree(native, replacements, n, p);
    var a, b, c := Moved(native, kept, before, 0), Moved(native, kept, block, |before|), Moved(native, kept, rest, |before| + |block|);
    SelectAppend(a + b, c, page);
    SelectAppend(a, b, page);
    MovedSelectsNothing(native, kept, before, 0, page);
    MovedSelectsNothing(native, kept, rest, |before| + |block|, page);
    MovedKeepsPages(native, kept, block, |before|, page);
    SelectUniform(b, page, page);
  }

  lemma MovedKeepsPages(native: seq<Element>, kept: set<string>, elements: seq<Element>, from: nat, page: Option<int>)
    requires Forest(ParentsOf(native)) && forall e :: e in elements ==> e.page == page
    ensures forall e :: e in Moved(native, kept, elements, from) ==> e.page == page
  {
  }

  /** Within the collected elements only the page's own block carries its number. */
  lemma NumberedParts(native: seq<Element>, replacements: Replacements, n: nat, p: nat)
    requires 1 <= p <= n
    requires forall q :: InRange(replacements, n, q) ==> OwnPage(replacements[q].elements, q)
    ensures Select(PagesUpTo(native, replacements, p - 1), Some(p)) == [] && Select(After(native, replacements, n, p), Some(p)) == []
    ensures forall e :: e in Block(native, replacements, p) ==> e.page == Some(p as int)
  {
    hide Select, Block, PagesUpTo, Tail;
    var upTo, tail := PagesUpTo(native, replacements, p), Tail(native, replacements, n, p);
    PagesInTwo(native, replacements, n, p);
    forall q | InRange(replacements, p, q) ensures OwnPage(replacements[q].elements, q) { assert InRange(replacements, n, q); }
    forall q | InRange(replacements, p - 1, q) ensures OwnPage(replacements[q].elements, q) { assert InRange(replacements, n, q); }
    BlocksByNumber(native, replacements, p - 1, p);
    BlocksByNumber(native, replacements, p, p);
    BlocksByNumber(native, replacements, n, p);
    SelectAppend(upTo, tail, Some(p));
    SelectAppend(tail, Select(native, None), Some(p));
    forall e | e in Select(native, None) ensures e.page != Some(p as int) { SelectMembers(native, None, e); }
    SelectsNothing(Select(native, None), Some(p));
    forall e | e in Block(native, replacements, p) ensures e.page == Some(p as int) {
      SelectMembers(upTo, Some(p), e);
    }
  }
}
