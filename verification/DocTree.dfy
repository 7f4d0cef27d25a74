// Document element trees: parent forests, validation, and the deterministic text
// buffer every element's byte span addresses.

module Forests {
  import opened Common
  import opened Graphs

  /** Each id's parent; None at a root. */
  type Parents = map<string, Option<string>>

  ghost predicate RankedAt(p: Parents, rank: map<string, nat>, k: string) {
    && k in p && k in rank
    && (p[k].Some? ==> p[k].value in p && p[k].value in rank && rank[p[k].value] < rank[k])
  }

  ghost predicate Ranks(p: Parents, rank: map<string, nat>) {
    rank.Keys == p.Keys && forall k {:trigger RankedAt(p, rank, k)} :: k in p ==> RankedAt(p, rank, k)
  }

  /** Every parent is known and following parents always ends. */
  ghost predicate Forest(p: Parents) {
    exists rank :: Ranks(p, rank)
  }

  ghost function SomeRank(p: Parents): (rank: map<string, nat>)
    requires Forest(p)
    ensures Ranks(p, rank)
  {
    var rank :| Ranks(p, rank);
    rank
  }

  /** x is a root's missing parent, or reaches one within n steps. */
  ghost predicate Ends(p: Parents, x: Option<string>, n: nat)
    decreases n
  {
    x.None? || (n > 0 && x.value in p && Ends(p, p[x.value], n - 1))
  }

  lemma {:induction false} EndsLater(p: Parents, x: Option<string>, n: nat, m: nat)
    requires Ends(p, x, n) && n <= m
    ensures Ends(p, x, m)
    decreases n
  {
    if x.Some? {
      EndsLater(p, p[x.value], n - 1, m - 1);
    }
  }

  lemma {:induction false} LeastEnd(p: Parents, x: Option<string>, n: nat) returns (least: nat)
    requires Ends(p, x, n)
    ensures Ends(p, x, least) && (least == 0 || !Ends(p, x, least - 1))
  {
    least := n;
    while least > 0 && Ends(p, x, least - 1)
      invariant Ends(p, x, least)
      decreases least
    {
      least := least - 1;
    }
  }

  ghost predicate EndsSomewhere(p: Parents, k: string) {
    exists n :: Ends(p, Some(k), n)
  }

  ghost predicate IsHeight(p: Parents, k: string, n: nat) {
    n > 0 && Ends(p, Some(k), n) && !Ends(p, Some(k), n - 1)
  }

  lemma HeightExists(p: Parents, k: string)
    requires EndsSomewhere(p, k)
    ensures exists n: nat :: IsHeight(p, k, n)
  {
    var m :| Ends(p, Some(k), m);
    var least := LeastEnd(p, Some(k), m);
    assert IsHeight(p, k, least);
  }

  ghost function Height(p: Parents, k: string): (n: nat)
    requires EndsSomewhere(p, k)
    ensures IsHeight(p, k, n)
  {
    HeightExists(p, k);
    var n: nat :| IsHeight(p, k, n);
    n
  }

  /** If every id's walk to its ancestors ends, the parents form a forest. */
  lemma EndingMeansForest(p: Parents)
    requires forall k :: k in p ==> EndsSomewhere(p, k)
    ensures Forest(p)
  {
    var rank := map k | k in p :: Height(p, k);
    forall k | k in p ensures RankedAt(p, rank, k) {
      if p[k].Some? {
        var q := p[k].value;
        assert Ends(p, Some(q), rank[k] - 1);
        assert q in p;
        if rank[q] > rank[k] - 1 {
          EndsLater(p, Some(q), rank[k] - 1, rank[q] - 1);
        }
      }
    }
    assert Ranks(p, rank);
  }

  /** The arcs from each id to its parent. */
  ghost function Arcs(p: Parents): set<(string, string)> {
    set k | k in p && p[k].Some? :: (k, p[k].value)
  }

  ghost predicate ParentKnown(p: Parents, k: string) {
    k in p && (p[k].Some? ==> p[k].value in p)
  }

  /** A forest is exactly a parent map with known parents and no cycle. */
  lemma ForestMeansAcyclic(p: Parents)
    ensures Forest(p) <==> (forall k {:trigger ParentKnown(p, k)} :: k in p ==> ParentKnown(p, k)) && !Cyclic(Arcs(p))
  {
    if Forest(p) {
      var rank := SomeRank(p);
      forall k | k in p ensures ParentKnown(p, k) { assert RankedAt(p, rank, k); }
      forall a | OnCycle(Arcs(p), a) ensures false {
        var w :| Joins(Arcs(p), w, a, a) && |w| >= 2;
        RankFalls(p, rank, w);
      }
    }
    if (forall k {:trigger ParentKnown(p, k)} :: k in p ==> ParentKnown(p, k)) && !Forest(p) {
      StuckForcesCycle(p);
    }
  }

  lemma {:induction false} RankFalls(p: Parents, rank: map<string, nat>, w: seq<string>)
    requires Ranks(p, rank) && IsWalk(Arcs(p), w) && |w| >= 2
    ensures w[0] in rank && w[|w| - 1] in rank && rank[w[|w| - 1]] < rank[w[0]]
  {
    assert ArcAt(Arcs(p), w, 0);
    assert RankedAt(p, rank, w[0]);
    if |w| > 2 {
      SubwalkIsWalk(Arcs(p), w, 1, |w|);
      assert w[1..|w|] == w[1..];
      RankFalls(p, rank, w[1..]);
    }
  }

  lemma EndsAbove(p: Parents, k: string)
    requires k in p && (p[k].None? || EndsSomewhere(p, p[k].value))
    ensures EndsSomewhere(p, k)
  {
    if p[k].None? {
      assert Ends(p, Some(k), 1);
    } else {
      var n: nat :| Ends(p, p[k], n);
      assert Ends(p, Some(k), n + 1);
    }
  }

  /** What does not end has a parent that does not end. */
  lemma StuckParent(p: Parents, k: string)
    requires ParentKnown(p, k) && !EndsSomewhere(p, k)
    ensures p[k].Some? && p[k].value in p && !EndsSomewhere(p, p[k].value)
  {
    hide EndsSomewhere, Ends;
    if p[k].None? || EndsSomewhere(p, p[k].value) {
      EndsAbove(p, k);
    }
  }

  lemma StuckForcesCycle(p: Parents)
    requires forall k {:trigger ParentKnown(p, k)} :: k in p ==> ParentKnown(p, k)
    requires !Forest(p)
    ensures Cyclic(Arcs(p))
  {
    hide EndsSomewhere, Ends;
    var stuck := set k | k in p && !EndsSomewhere(p, k);
    if stuck == {} {
      forall k | k in p ensures EndsSomewhere(p, k) { assert k !in stuck; }
      EndingMeansForest(p);
    }
    forall k | k in stuck ensures HasPredecessor(Flip(Arcs(p)), stuck, k) {
      assert ParentKnown(p, k);
      StuckParent(p, k);
      var q := p[k].value;
      assert (k, q) in Arcs(p);
      assert (q, k) in Flip(Arcs(p));
      assert q in stuck;
    }
    PredecessorsForceCycle(Flip(Arcs(p)), stuck);
    var a :| OnCycle(Flip(Arcs(p)), a);
    FlipKeepsCycles(Flip(Arcs(p)), a);
    FlipTwice(Arcs(p));
  }

  lemma FlipTwice(arcs: set<(string, string)>)
    ensures Flip(Flip(arcs)) == arcs
  {
    forall x ensures x in Flip(Flip(arcs)) <==> x in arcs {
      if x in arcs {
        assert (x.1, x.0) in Flip(arcs);
        assert ((x.1, x.0).1, (x.1, x.0).0) == x;
      }
    }
  }

  lemma ForestUnion(p: Parents, q: Parents)
    requires Forest(p) && Forest(q) && p.Keys !! q.Keys
    ensures Forest(p + q)
  {
    var a, b := SomeRank(p), SomeRank(q);
    forall k | k in p + q ensures RankedAt(p + q, a + b, k) {
      assert if k in q then RankedAt(q, b, k) else RankedAt(p, a, k);
    }
    assert Ranks(p + q, a + b);
  }
}

module DocTree {
  import opened Common
  import opened Ordering
  import opened Utf8
  import opened Forests

  /** level is the heading level attribute; bounding boxes and other attributes are not modelled. */
  datatype Element = Element(
    id: string, kind: string, text: string, byteStart: int, byteEnd: int,
    page: Option<int>, parent: Option<string>, order: int, level: int)

  datatype Tree = Tree(sourceId: string, text: string, elements: seq<Element>)

  datatype ElementError =
    | DuplicateIdentity | UnknownKind | InvalidByteRange | SpanMismatch | InvalidPage | MissingParent | CyclicHierarchy

  const KINDS: set<string> := {
    "Title", "SectionHeader", "Paragraph", "ListItem", "Table", "TableCell", "Figure", "Formula",
    "Code", "Header", "Footer", "PageBreak", "Footnote", "Caption"}

  ghost predicate UniqueIds(elements: seq<Element>) {
    forall i, j :: 0 <= i < j < |elements| ==> elements[i].id != elements[j].id
  }

  function IdSet(elements: seq<Element>): set<string> {
    if elements == [] then {} else IdSet(elements[..|elements| - 1]) + {elements[|elements| - 1].id}
  }

  /** The parent dictionary; a later element with the same id would win. */
  function ParentsOf(elements: seq<Element>): Parents {
    if elements == [] then map[]
    else
      var init, last := elements[..|elements| - 1], elements[|elements| - 1];
      ParentsOf(init)[last.id := last.parent]
  }

  lemma {:induction false} IdsAre(elements: seq<Element>)
    ensures forall i :: 0 <= i < |elements| ==> elements[i].id in IdSet(elements)
  {
    if elements != [] {
      IdsAre(elements[..|elements| - 1]);
    }
  }

  lemma {:induction false} IndexOfId(elements: seq<Element>, id: string) returns (i: nat)
    requires id in IdSet(elements)
    ensures i < |elements| && elements[i].id == id
  {
    var init, last := elements[..|elements| - 1], elements[|elements| - 1];
    if last.id == id {
      i := |elements| - 1;
    } else {
      i := IndexOfId(init, id);
    }
  }

  lemma LastIsNew(init: seq<Element>, last: Element)
    requires UniqueIds(init + [last])
    ensures last.id !in IdSet(init) && UniqueIds(init)
  {
    var all := init + [last];
    forall i | 0 <= i < |init| ensures init[i].id != last.id {
      assert all[i].id != all[|init|].id;
    }
    forall i, j | 0 <= i < j < |init| ensures init[i].id != init[j].id {
      assert all[i].id != all[j].id;
    }
    if last.id in IdSet(init) {
      var i := IndexOfId(init, last.id);
    }
  }

  lemma {:induction false} CountingIds(elements: seq<Element>)
    ensures |IdSet(elements)| <= |elements|
    ensures |IdSet(elements)| == |elements| <==> UniqueIds(elements)
  {
    if elements != [] {
      var init, last := elements[..|elements| - 1], elements[|elements| - 1];
      CountingIds(init);
      IdsAre(init);
      if last.id in IdSet(init) {
        var i := IndexOfId(init, last.id);
        assert elements[i].id == last.id;
      } else if UniqueIds(init) {
        assert forall i :: 0 <= i < |init| ==> elements[i].id != last.id;
      }
    }
  }

  lemma {:induction false} ParentsKeys(elements: seq<Element>)
    ensures ParentsOf(elements).Keys == IdSet(elements)
  {
    if elements != [] {
      ParentsKeys(elements[..|elements| - 1]);
    }
  }

  lemma {:induction false} ParentsAt(elements: seq<Element>, i: nat)
    requires UniqueIds(elements) && i < |elements|
    ensures elements[i].id in ParentsOf(elements) && ParentsOf(elements)[elements[i].id] == elements[i].parent
  {
    if i < |elements| - 1 {
      ParentsAt(elements[..|elements| - 1], i);
    }
  }

  /** Kind, page and parent are acceptable whatever the spans are. */
  ghost predicate Acceptable(e: Element, ids: set<string>) {
    && e.kind in KINDS
    && (e.page.Some? ==> e.page.value >= 1)
    && (e.parent.Some? ==> e.parent.value in ids)
  }

  ghost predicate SpanHolds(e: Element, encoded: seq<Byte>) {
    0 <= e.byteStart <= e.byteEnd <= |encoded| && encoded[e.byteStart..e.byteEnd] == Encode(e.text)
  }

  /** What can be said of elements before they have spans. */
  ghost predicate Buildable(elements: seq<Element>) {
    && UniqueIds(elements)
    && (forall i :: 0 <= i < |elements| ==> Acceptable(elements[i], IdSet(elements)))
    && Forest(ParentsOf(elements))
  }

  ghost predicate ValidTree(t: Tree) {
    Buildable(t.elements) && forall i :: 0 <= i < |t.elements| ==> SpanHolds(t.elements[i], Encode(t.text))
  }

  /** Follow one element's parents; fails on a repeat or a missing parent. */
  method WalkUp(parents: Parents, start: string) returns (error: Option<ElementError>)
    requires start in parents
    ensures error.None? ==> EndsSomewhere(parents, start)
    ensures error.Some? ==> !Forest(parents)
  {
    ghost var rank: map<string, nat> := if Forest(parents) then SomeRank(parents) else map[];
    var visited := {start};
    var parent := parents[start];
    ghost var steps: nat := 1;
    assert Forest(parents) ==> RankedAt(parents, rank, start);
    while parent.Some?
      invariant visited <= parents.Keys
      invariant Forest(parents) && parent.Some? ==>
          parent.value in parents && parent.value in rank && forall v :: v in visited ==> v in rank && rank[parent.value] < rank[v]
      invariant forall n: nat :: Ends(parents, parent, n) ==> Ends(parents, Some(start), n + steps)
      decreases parents.Keys - visited
    {
      if parent.value in visited {
        return Some(CyclicHierarchy);
      }
      if parent.value !in parents {
        return Some(MissingParent);
      }
      assert Forest(parents) ==> RankedAt(parents, rank, parent.value);
      ghost var before := parent;
      visited := visited + {parent.value};
      parent := parents[parent.value];
      steps := steps + 1;
      forall n: nat | Ends(parents, parent, n) ensures Ends(parents, Some(start), n + steps) {
        assert Ends(parents, before, n + 1);
      }
    }
    assert Ends(parents, parent, 0);
    return None;
  }

  method CheckElement(e: Element, encoded: seq<Byte>, ids: set<string>) returns (error: Option<ElementError>)
    ensures error.None? <==> Acceptable(e, ids) && SpanHolds(e, encoded)
  {
    if e.kind !in KINDS {
      return Some(UnknownKind);
    }
    if !(0 <= e.byteStart <= e.byteEnd <= |encoded|) {
      return Some(InvalidByteRange);
    }
    if encoded[e.byteStart..e.byteEnd] != Encode(e.text) {
      return Some(SpanMismatch);
    }
    if e.page.Some? && e.page.value < 1 {
      return Some(InvalidPage);
    }
    if e.parent.Some? && e.parent.value !in ids {
      return Some(MissingParent);
    }
    return None;
  }

  /** Raises exactly on trees that are not valid. */
  method Validate(t: Tree) returns (error: Option<ElementError>)
    ensures error.None? <==> ValidTree(t)
  {
    var encoded, ids, parents := Encode(t.text), IdSet(t.elements), ParentsOf(t.elements);
    CountingIds(t.elements);
    IdsAre(t.elements);
    ParentsKeys(t.elements);
    if |ids| != |t.elements| {
      return Some(DuplicateIdentity);
    }
    for i := 0 to |t.elements|
      invariant forall k :: 0 <= k < i ==> Acceptable(t.elements[k], ids) && SpanHolds(t.elements[k], encoded)
      invariant forall k :: 0 <= k < i ==> EndsSomewhere(parents, t.elements[k].id)
    {
      var check := CheckElement(t.elements[i], encoded, ids);
      if check.Some? {
        return check;
      }
      var walk := WalkUp(parents, t.elements[i].id);
      if walk.Some? {
        return walk;
      }
    }
    forall k | k in parents ensures EndsSomewhere(parents, k) {
      var i := IndexOfId(t.elements, k);
    }
    EndingMeansForest(parents);
    return None;
  }

  // ----- The text buffer -----

  /** Where element i starts: one newline byte separates neighbours. */
  function Offset(elements: seq<Element>, i: nat): nat
    requires i <= |elements|
  {
    if i == 0 then 0 else Offset(elements, i - 1) + |Encode(elements[i - 1].text)| + 1
  }

  function Joined(elements: seq<Element>): string {
    if elements == [] then ""
    else if |elements| == 1 then elements[0].text
    else Joined(elements[..|elements| - 1]) + "\n" + elements[|elements| - 1].text
  }

  function Rebased(elements: seq<Element>): (r: seq<Element>)
    ensures |r| == |elements|
  {
    seq(|elements|, i requires 0 <= i < |elements| =>
      elements[i].(order := i, byteStart := Offset(elements, i), byteEnd := Offset(elements, i) + |Encode(elements[i].text)|))
  }

  /** Rebasing numbers the elements as they are listed, sets their spans, and changes nothing else. */
  lemma RebasedMeans(elements: seq<Element>, i: nat)
    requires i < |elements|
    ensures var e, t := elements[i], Rebased(elements)[i];
            && t.order == i && t.id == e.id && t.kind == e.kind && t.text == e.text && t.page == e.page
            && t.parent == e.parent && t.level == e.level && t.byteEnd - t.byteStart == |Encode(e.text)|
            && t.byteStart == if i == 0 then 0 else Rebased(elements)[i - 1].byteEnd + 1
  {
  }

  lemma {:induction false} OffsetOfPrefix(elements: seq<Element>, n: nat, i: nat)
    requires i <= n <= |elements|
    ensures Offset(elements[..n], i) == Offset(elements, i)
  {
    if i != 0 {
      OffsetOfPrefix(elements, n, i - 1);
    }
  }

  lemma EncodeLine(s: string, t: string)
    ensures Encode(s + "\n" + t) == Encode(s) + [NEWLINE] + Encode(t)
  {
    EncodeConcat(s + "\n", t);
    EncodeConcat(s, "\n");
    assert Encode("\n") == EncodeChar('\n') + Encode("");
    assert EncodeChar('\n') == [NEWLINE];
  }

  lemma {:induction false} JoinedLength(elements: seq<Element>)
    requires elements != []
    ensures |Encode(Joined(elements))| + 1 == Offset(elements, |elements|)
  {
    if |elements| > 1 {
      var init, last := elements[..|elements| - 1], elements[|elements| - 1];
      JoinedLength(init);
      OffsetOfPrefix(elements, |init|, |init|);
      EncodeLine(Joined(init), last.text);
    }
  }

  function End(elements: seq<Element>, i: nat): nat
    requires i < |elements|
  {
    Offset(elements, i) + |Encode(elements[i].text)|
  }

  lemma SliceOfPrefix<T>(a: seq<T>, b: seq<T>, start: nat, end: nat)
    requires start <= end <= |a|
    ensures (a + b)[start..end] == a[start..end] && (end < |a| ==> (a + b)[end] == a[end])
  {
  }

  /** Adding an element extends the buffer by a newline and that element's text. */
  lemma JoinedGrows(elements: seq<Element>)
    requires |elements| > 1
    ensures var init, last := elements[..|elements| - 1], elements[|elements| - 1];
            && Encode(Joined(elements)) == Encode(Joined(init)) + ([NEWLINE] + Encode(last.text))
            && |Encode(Joined(init))| + 1 == Offset(elements, |init|)
  {
    var init, last := elements[..|elements| - 1], elements[|elements| - 1];
    EncodeLine(Joined(init), last.text);
    JoinedLength(init);
    OffsetOfPrefix(elements, |init|, |init|);
  }

  lemma OnlyElement(elements: seq<Element>)
    requires |elements| == 1
    ensures Joined(elements) == elements[0].text && Offset(elements, 0) == 0
  {
  }

  /** The buffer's bytes at an element's offset are exactly that element's text. */
  lemma {:induction false} BufferHoldsText(elements: seq<Element>, i: nat)
    requires i < |elements|
    ensures End(elements, i) <= |Encode(Joined(elements))|
    ensures Encode(Joined(elements))[Offset(elements, i)..End(elements, i)] == Encode(elements[i].text)
    ensures i + 1 < |elements| ==>
              End(elements, i) < |Encode(Joined(elements))| && Encode(Joined(elements))[End(elements, i)] == NEWLINE
  {
    hide Joined, Encode;
    if |elements| == 1 {
      OnlyElement(elements);
    } else {
      var init, last := elements[..|elements| - 1], elements[|elements| - 1];
      var before, added := Encode(Joined(init)), [NEWLINE] + Encode(last.text);
      JoinedGrows(elements);
      if i < |init| {
        BufferHoldsText(init, i);
        OffsetOfPrefix(elements, |init|, i);
        SliceOfPrefix(before, added, Offset(elements, i), End(elements, i));
        if i + 1 == |init| {
          JoinedLength(init);
          assert (before + added)[|before|] == NEWLINE;
        }
      } else {
        assert (before + added)[|before| + 1..] == Encode(last.text);
      }
    }
  }

  lemma {:induction false} SameIdsAndParents(a: seq<Element>, b: seq<Element>)
    requires |a| == |b| && forall i :: 0 <= i < |a| ==> a[i].id == b[i].id && a[i].parent == b[i].parent
    ensures ParentsOf(a) == ParentsOf(b) && IdSet(a) == IdSet(b)
  {
    if a != [] {
      SameIdsAndParents(a[..|a| - 1], b[..|b| - 1]);
    }
  }

  lemma RebasedBuildable(elements: seq<Element>)
    ensures Buildable(Rebased(elements)) <==> Buildable(elements)
  {
    var rebased, ids := Rebased(elements), IdSet(elements);
    SameIdsAndParents(rebased, elements);
    forall i | 0 <= i < |elements|
      ensures rebased[i].id == elements[i].id && Acceptable(rebased[i], ids) == Acceptable(elements[i], ids)
    {
    }
    if UniqueIds(rebased) {
      forall i, j | 0 <= i < j < |elements| ensures elements[i].id != elements[j].id {
        assert rebased[i].id != rebased[j].id;
      }
    }
  }

  lemma BuiltIsValid(sourceId: string, elements: seq<Element>)
    ensures ValidTree(Tree(sourceId, Joined(elements), Rebased(elements))) <==> Buildable(elements)
  {
    hide Buildable, Joined, Encode, Offset;
    RebasedBuildable(elements);
    forall i | 0 <= i < |elements| ensures SpanHolds(Rebased(elements)[i], Encode(Joined(elements))) {
      BufferHoldsText(elements, i);
    }
  }

  /** Rebasing never fails on account of spans: it fails exactly on elements that are not buildable. */
  method BuildTree(sourceId: string, elements: seq<Element>) returns (r: Result<Tree, ElementError>)
    ensures r.Ok? <==> Buildable(elements)
    ensures r.Ok? ==> r.value == Tree(sourceId, Joined(elements), Rebased(elements)) && ValidTree(r.value)
  {
    var result: seq<Element> := [];
    var text := "";
    var position := 0;
    for i := 0 to |elements|
      invariant |result| == i && forall k :: 0 <= k < i ==> result[k] == Rebased(elements)[k]
      invariant text == Joined(elements[..i])
      invariant position == if i == 0 then 0 else Offset(elements, i) - 1
    {
      assert elements[..i + 1][..i] == elements[..i];
      if i != 0 {
        text := text + "\n";
        position := position + 1;
      }
      var raw := Encode(elements[i].text);
      result := result + [elements[i].(order := i, byteStart := position, byteEnd := position + |raw|)];
      text := text + elements[i].text;
      position := position + |raw|;
    }
    assert elements[..|elements|] == elements;
    assert result == Rebased(elements);
    BuiltIsValid(sourceId, elements);
    var tree := Tree(sourceId, text, result);
    var error := Validate(tree);
    r := if error.Some? then Err(error.value) else Ok(tree);
  }

  /** Spans are in order, disjoint, and exactly one newline byte apart. */
  lemma SpansAreSeparated(elements: seq<Element>, i: nat, j: nat)
    requires i < j < |elements|
    ensures Rebased(elements)[i].byteEnd < Rebased(elements)[j].byteStart
    ensures j == i + 1 ==> Rebased(elements)[i].byteEnd + 1 == Rebased(elements)[j].byteStart
    decreases j
  {
    if j > i + 1 {
      SpansAreSeparated(elements, i, j - 1);
    }
  }
}
