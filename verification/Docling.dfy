// The Docling traversal: a depth-first walk over a reference graph that emits each
// labelled item once and raises on what it cannot represent.

module Docling {
  import opened Common
  import opened Ordering
  import opened Graphs
  import opened Tables
  import DocTree

  datatype Item = Item(
    tag: string, text: string, children: seq<string>, captions: seq<string>, parent: Option<string>,
    cells: seq<Cell>, nrows: int, ncols: int)

  /** The reference dictionary with its insertion order, and the two traversal roots. */
  datatype Document = Document(refs: map<string, Item>, order: seq<string>, body: Option<string>, furniture: Option<string>)

  const LABELS: map<string, string> := map[
    "title" := "Title", "section_header" := "SectionHeader", "text" := "Paragraph", "paragraph" := "Paragraph",
    "list_item" := "ListItem", "table" := "Table", "picture" := "Figure", "formula" := "Formula", "code" := "Code",
    "page_header" := "Header", "page_footer" := "Footer", "page_break" := "PageBreak", "footnote" := "Footnote",
    "caption" := "Caption", "checkbox_selected" := "Paragraph", "checkbox_unselected" := "Paragraph", "reference" := "Paragraph"]

  /** Element identities: a digest of the reference, or of the reference and a cell number. */
  datatype ElementId = OfItem(ref: string) | OfCell(ref: string, index: nat)

  datatype Out = Out(id: ElementId, kind: string, text: string, parent: Option<ElementId>)

  datatype TraversalError = Cycle | Dangling | UnsupportedLabel | MissingCaption | BadTable

  ghost predicate WellFormed(d: Document) {
    && (forall r :: r in d.order <==> r in d.refs)
    && (d.body.Some? ==> d.body.value in d.refs) && (d.furniture.Some? ==> d.furniture.value in d.refs)
  }

  predicate Labelled(item: Item) {
    item.tag in LABELS
  }

  ghost function Arcs(d: Document): set<(string, string)> {
    set r, c | r in d.refs && c in d.refs[r].children :: (r, c)
  }

  predicate CaptionsResolve(d: Document, item: Item) {
    forall c :: c in item.captions ==> c in d.refs
  }

  /** What is wrong with a referenced item itself, if anything. */
  ghost predicate Faulty(d: Document, item: Item, e: TraversalError) {
    match e
    case UnsupportedLabel => !Labelled(item) && item.children == [] && item.text != ""
    case MissingCaption => Labelled(item) && LABELS[item.tag] == "Figure" && !CaptionsResolve(d, item)
    case BadTable => Labelled(item) && LABELS[item.tag] == "Table" && !Acceptable(item.cells, item.nrows, item.ncols)
    case _ => false
  }

  ghost predicate Sound(d: Document, item: Item) {
    forall e :: !Faulty(d, item, e)
  }

  /** A reference that must make the traversal raise. */
  ghost predicate Bad(d: Document, x: string, e: TraversalError) {
    match e
    case Dangling => x !in d.refs
    case Cycle => OnCycle(Arcs(d), x)
    case _ => x in d.refs && Faulty(d, d.refs[x], e)
  }

  ghost predicate IsRoot(d: Document, r: string) {
    d.body == Some(r) || d.furniture == Some(r) || (r in d.refs && Labelled(d.refs[r]))
  }

  ghost predicate Visited(d: Document, x: string) {
    exists r :: IsRoot(d, r) && Reaches(Arcs(d), r, x)
  }

  // ----- The state between visits -----

  ghost predicate HasId(output: seq<Out>, id: ElementId) {
    exists i :: 0 <= i < |output| && output[i].id == id
  }

  ghost predicate UniqueOut(output: seq<Out>) {
    forall i, j :: 0 <= i < j < |output| ==> output[i].id != output[j].id
  }

  /** A non-empty walk from a root whose last reference lists ref as a child. */
  ghost predicate Leads(d: Document, path: seq<string>, ref: string) {
    IsWalk(Arcs(d), path) && IsRoot(d, path[0]) && (path[|path| - 1], ref) in Arcs(d)
  }

  /** The last labelled item on a walk. */
  ghost function NearestLabelled(d: Document, path: seq<string>): Option<ElementId> {
    if path == [] then None
    else
      var last := path[|path| - 1];
      if last in d.refs && Labelled(d.refs[last]) then Some(OfItem(last)) else NearestLabelled(d, path[..|path| - 1])
  }

  /** The parent an item declares, when that parent is a labelled item already emitted. */
  ghost function DeclaredParent(d: Document, before: seq<Out>, item: Item): Option<ElementId> {
    if item.parent.Some? && HasId(before, OfItem(item.parent.value)) then Some(OfItem(item.parent.value)) else None
  }

  /** The roots visited before the turn of the i-th reference. */
  ghost predicate RootBefore(d: Document, i: int, r: string) {
    d.body == Some(r) || d.furniture == Some(r)
    || (r in d.refs && Labelled(d.refs[r]) && exists k :: 0 <= k < i && k < |d.order| && d.order[k] == r)
  }

  /** A labelled reference that nothing visited before its own turn reaches. */
  ghost predicate LateAt(d: Document, i: int, ref: string) {
    0 <= i < |d.order| && d.order[i] == ref && forall r :: RootBefore(d, i, r) ==> !Reaches(Arcs(d), r, ref)
  }

  ghost predicate LateRoot(d: Document, ref: string) {
    ref in d.refs && Labelled(d.refs[ref]) && exists i :: LateAt(d, i, ref)
  }

  /** One of the two traversal roots, and reached by no earlier root. */
  ghost predicate TraversalRoot(d: Document, root: string, ref: string) {
    d.body == Some(root)
    || (d.furniture == Some(root) && (d.body.Some? ==> !Reaches(Arcs(d), d.body.value, ref)))
  }

  /** No root visited before this one reaches ref. */
  ghost predicate FirstRoot(d: Document, root: string, ref: string) {
    TraversalRoot(d, root, ref)
    || (root in d.refs && Labelled(d.refs[root])
        && exists i :: RootAt(d, i, root) && forall r :: RootBefore(d, i, r) ==> !Reaches(Arcs(d), r, ref))
  }

  ghost predicate RootAt(d: Document, i: int, root: string) {
    0 <= i < |d.order| && d.order[i] == root
  }

  /** The i-th step of the walk goes to the first child from which ref can be reached. */
  ghost predicate FirstStep(d: Document, path: seq<string>, ref: string, i: int)
    requires 0 <= i < |path|
  {
    path[i] in d.refs &&
    var children := d.refs[path[i]].children;
    exists k :: 0 <= k < |children| && children[k] == (path + [ref])[i + 1]
             && forall j :: 0 <= j < k ==> !Reaches(Arcs(d), children[j], ref)
  }

  /** The first walk, depth first, that meets ref: from the first root that reaches it, always
      to the first child that does. */
  ghost predicate FirstWalk(d: Document, path: seq<string>, ref: string) {
    && Leads(d, path, ref) && FirstRoot(d, path[0], ref)
    && forall i {:trigger FirstStep(d, path, ref, i)} :: 0 <= i < |path| ==> FirstStep(d, path, ref, i)
  }

  /** The parent a root is visited with. */
  ghost predicate RootFits(d: Document, before: seq<Out>, ref: string, parent: Option<ElementId>)
    requires ref in d.refs
  {
    if LateRoot(d, ref) then parent == DeclaredParent(d, before, d.refs[ref])
    else TraversalRoot(d, ref, ref) && parent == None
  }

  /** The parent an item is given: for a late root the one it declares, if already emitted; for a
      traversal root none; for any other its nearest labelled ancestor on the first walk to it. */
  ghost predicate ParentFits(d: Document, before: seq<Out>, ref: string, parent: Option<ElementId>)
    requires ref in d.refs
  {
    if LateRoot(d, ref) || TraversalRoot(d, ref, ref) then RootFits(d, before, ref, parent)
    else exists path :: FirstWalk(d, path, ref) && parent == NearestLabelled(d, path)
  }

  predicate IsTable(d: Document, ref: string) {
    ref in d.refs && Labelled(d.refs[ref]) && LABELS[d.refs[ref].tag] == "Table"
  }

  /** What an element must say, given everything emitted before it. */
  ghost predicate Fits(d: Document, before: seq<Out>, o: Out) {
    && (o.parent.Some? ==> HasId(before, o.parent.value))
    && match o.id
       case OfItem(ref) =>
         && ref in d.refs && Labelled(d.refs[ref])
         && o.kind == LABELS[d.refs[ref].tag] && o.text == d.refs[ref].text
         && ParentFits(d, before, ref, o.parent)
       case OfCell(ref, k) =>
         && IsTable(d, ref) && k < |d.refs[ref].cells|
         && o.kind == "TableCell" && o.text == d.refs[ref].cells[k].text && o.parent == Some(OfItem(ref))
  }

  ghost predicate FitsAt(d: Document, output: seq<Out>, i: int)
    requires 0 <= i < |output|
  {
    Fits(d, output[..i], output[i])
  }

  ghost predicate OutputSound(d: Document, output: seq<Out>) {
    UniqueOut(output) && forall i {:trigger FitsAt(d, output, i)} :: 0 <= i < |output| ==> FitsAt(d, output, i)
  }

  /** An item is in the output exactly when it is labelled and being visited or already emitted. */
  ghost predicate Shown(d: Document, active: set<string>, finished: seq<string>, output: seq<Out>, r: string) {
    HasId(output, OfItem(r)) <==> (r in active || r in finished) && r in d.refs && Labelled(d.refs[r])
  }

  /** A table in the output has exactly its own cells there too. */
  ghost predicate CellsShown(d: Document, output: seq<Out>, r: string, k: nat) {
    HasId(output, OfCell(r, k)) <==> HasId(output, OfItem(r)) && IsTable(d, r) && k < |d.refs[r].cells|
  }

  /** Emitted references are known, sound, and have all children emitted before them. */
  ghost predicate FinishedSound(d: Document, finished: seq<string>) {
    && (forall r :: r in finished ==> r in d.refs && Sound(d, d.refs[r]))
    && Topological(Flip(Arcs(d)), finished)
  }

  ghost predicate Consistent(d: Document, active: set<string>, finished: seq<string>, output: seq<Out>) {
    && (forall r :: r in active ==> r in d.refs && r !in finished)
    && FinishedSound(d, finished)
    && OutputSound(d, output)
    && (forall r {:trigger Shown(d, active, finished, output, r)} :: Shown(d, active, finished, output, r))
    && forall r, k: nat {:trigger CellsShown(d, output, r, k)} :: CellsShown(d, output, r, k)
  }

  lemma AppendOut(d: Document, output: seq<Out>, o: Out)
    requires OutputSound(d, output) && !HasId(output, o.id) && Fits(d, output, o)
    ensures OutputSound(d, output + [o])
    ensures forall id :: HasId(output + [o], id) <==> HasId(output, id) || id == o.id
  {
    var longer := output + [o];
    forall id ensures HasId(longer, id) <==> HasId(output, id) || id == o.id {
      if i :| 0 <= i < |output| && output[i].id == id { assert longer[i].id == id; }
      assert longer[|output|].id == o.id;
    }
    forall i | 0 <= i < |longer| ensures FitsAt(d, longer, i) {
      if i < |output| {
        assert FitsAt(d, output, i) && longer[..i] == output[..i];
      } else {
        assert longer[..i] == output;
      }
    }
  }

  // ----- The walk so far, for the error cases -----

  /** path is a walk from a root through exactly the active references, and ref is where it goes next. */
  ghost predicate OnPath(d: Document, active: set<string>, path: seq<string>, ref: string) {
    && (forall r :: r in active <==> r in path)
    && if path == [] then IsRoot(d, ref) else Leads(d, path, ref)
  }

  lemma ExtendWalk(arcs: set<(string, string)>, w: seq<string>, b: string)
    requires IsWalk(arcs, w) && (w[|w| - 1], b) in arcs
    ensures IsWalk(arcs, w + [b])
  {
    forall i | 0 <= i < |w| ensures ArcAt(arcs, w + [b], i) {
      assert i == |w| - 1 || ArcAt(arcs, w, i);
    }
  }

  lemma PathVisits(d: Document, active: set<string>, path: seq<string>, ref: string)
    requires OnPath(d, active, path, ref)
    ensures Visited(d, ref)
  {
    if path == [] {
      ReachesSelf(Arcs(d), ref);
    } else {
      ExtendWalk(Arcs(d), path, ref);
      assert Joins(Arcs(d), path + [ref], path[0], ref);
    }
  }

  lemma WalkBackIsCycle(arcs: set<(string, string)>, w: seq<string>, k: nat)
    requires k < |w| && IsWalk(arcs, w) && (w[|w| - 1], w[k]) in arcs
    ensures OnCycle(arcs, w[k])
  {
    var tail := w[k..|w|];
    SubwalkIsWalk(arcs, w, k, |w|);
    ExtendWalk(arcs, tail, w[k]);
    var around := tail + [w[k]];
    assert Joins(arcs, around, w[k], w[k]) && |around| >= 2;
  }

  lemma RepeatIsCycle(d: Document, active: set<string>, path: seq<string>, ref: string)
    requires OnPath(d, active, path, ref) && ref in active
    ensures OnCycle(Arcs(d), ref)
  {
    var k :| 0 <= k < |path| && path[k] == ref;
    WalkBackIsCycle(Arcs(d), path, k);
  }

  lemma NextOnPath(d: Document, active: set<string>, path: seq<string>, ref: string, child: string)
    requires OnPath(d, active, path, ref) && ref in d.refs && child in d.refs[ref].children
    ensures OnPath(d, active + {ref}, path + [ref], child)
  {
    if path != [] {
      ExtendWalk(Arcs(d), path, ref);
    } else {
      assert [] + [ref] == [ref];
    }
    assert (ref, child) in Arcs(d);
  }

  /** Whose turn it is: a traversal root, or the reference at this position; the roots before it
      are emitted. */
  ghost predicate Turn(d: Document, emitted: set<string>, turn: nat, root: string) {
    d.body == Some(root)
    || ((d.body.Some? ==> d.body.value in emitted)
        && (d.furniture == Some(root)
            || ((d.furniture.Some? ==> d.furniture.value in emitted)
                && turn < |d.order| && d.order[turn] == root && root in d.refs && Labelled(d.refs[root])
                && forall k :: 0 <= k < turn && d.order[k] in d.refs && Labelled(d.refs[d.order[k]]) ==> d.order[k] in emitted)))
  }

  /** The children listed before the one the walk takes are emitted. */
  ghost predicate StepDone(d: Document, emitted: set<string>, path: seq<string>, ref: string, i: int)
    requires 0 <= i < |path|
  {
    path[i] in d.refs &&
    var children := d.refs[path[i]].children;
    exists k :: 0 <= k < |children| && children[k] == (path + [ref])[i + 1]
             && forall j :: 0 <= j < k ==> children[j] in emitted
  }

  ghost predicate PathDone(d: Document, emitted: set<string>, path: seq<string>, ref: string) {
    forall i {:trigger StepDone(d, emitted, path, ref, i)} :: 0 <= i < |path| ==> StepDone(d, emitted, path, ref, i)
  }

  lemma PathStaysDone(d: Document, emitted: set<string>, more: set<string>, path: seq<string>, ref: string)
    requires PathDone(d, emitted, path, ref) && emitted <= more
    ensures PathDone(d, more, path, ref)
  {
    forall i | 0 <= i < |path| ensures StepDone(d, more, path, ref, i) {
      assert StepDone(d, emitted, path, ref, i);
    }
  }

  lemma PathGoesOn(d: Document, emitted: set<string>, path: seq<string>, ref: string, k: nat)
    requires PathDone(d, emitted, path, ref) && ref in d.refs && k < |d.refs[ref].children|
    requires forall j :: 0 <= j < k ==> d.refs[ref].children[j] in emitted
    ensures PathDone(d, emitted, path + [ref], d.refs[ref].children[k])
  {
    var longer, child := path + [ref], d.refs[ref].children[k];
    forall i | 0 <= i < |longer| ensures StepDone(d, emitted, longer, child, i) {
      if i < |path| {
        assert StepDone(d, emitted, path, ref, i);
        assert (longer + [child])[i + 1] == (path + [ref])[i + 1] && longer[i] == path[i];
      } else {
        assert (longer + [child])[i + 1] == child && longer[i] == ref;
      }
    }
  }

  lemma PathReaches(d: Document, path: seq<string>, ref: string)
    requires Leads(d, path, ref)
    ensures Reaches(Arcs(d), path[0], ref)
  {
    ExtendWalk(Arcs(d), path, ref);
    assert Joins(Arcs(d), path + [ref], path[0], ref);
  }

  /** What is first met below another root is no root of its own. */
  lemma MetBelowIsNoRoot(d: Document, emitted: set<string>, turn: nat, path: seq<string>, ref: string)
    requires Leads(d, path, ref) && Turn(d, emitted, turn, path[0]) && ref !in emitted && ref != path[0]
    ensures !LateRoot(d, ref) && !TraversalRoot(d, ref, ref)
  {
    hide Arcs;
    PathReaches(d, path, ref);
    if ref in d.refs && Labelled(d.refs[ref]) {
      forall i | 0 <= i < |d.order| && d.order[i] == ref ensures RootBefore(d, i, path[0]) {
        assert i >= turn || ref == d.order[i];
      }
    }
  }

  /** The walk on which an unemitted reference is met is the first one to it. */
  lemma MetOnFirstWalk(d: Document, finished: seq<string>, emitted: set<string>, turn: nat, path: seq<string>, ref: string)
    requires FinishedSound(d, finished) && (forall r :: r in emitted <==> r in finished)
    requires Leads(d, path, ref) && Turn(d, emitted, turn, path[0]) && ref !in emitted && PathDone(d, emitted, path, ref)
    ensures FirstWalk(d, path, ref)
  {
    hide Arcs, FinishedSound;
    forall r | r in emitted ensures !Reaches(Arcs(d), r, ref) {
      if Reaches(Arcs(d), r, ref) { FinishedIsClosed(d, finished, r, ref); }
    }
    forall i | 0 <= i < |path| ensures FirstStep(d, path, ref, i) {
      assert StepDone(d, emitted, path, ref, i);
    }
    if !TraversalRoot(d, path[0], ref) {
      assert RootAt(d, turn, path[0]);
      assert forall r :: RootBefore(d, turn, r) ==> r in emitted;
    }
  }

  lemma StepsReach(d: Document, path: seq<string>, ref: string, i: nat)
    requires Leads(d, path, ref) && i <= |path|
    ensures Reaches(Arcs(d), (path + [ref])[i], ref)
  {
    var w := path + [ref];
    ExtendWalk(Arcs(d), path, ref);
    SubwalkIsWalk(Arcs(d), w, i, |w|);
    assert Joins(Arcs(d), w[i..|w|], w[i], ref);
  }

  lemma EarlierReaches(d: Document, i: int, a: string, j: int, ref: string)
    requires i < j && RootAt(d, i, a) && a in d.refs && Labelled(d.refs[a]) && Reaches(Arcs(d), a, ref)
    ensures exists r :: RootBefore(d, j, r) && Reaches(Arcs(d), r, ref)
  {
    hide Arcs;
    assert RootBefore(d, j, a);
  }

  lemma TraversalComesFirst(d: Document, a: string, b: string, ref: string)
    requires TraversalRoot(d, a, ref) && Reaches(Arcs(d), a, ref) && FirstRoot(d, b, ref)
    ensures TraversalRoot(d, b, ref)
  {
    hide Arcs;
    forall i ensures RootBefore(d, i, a) {
    }
  }

  /** There is only one first root. */
  lemma OneFirstRoot(d: Document, a: string, b: string, ref: string)
    requires FirstRoot(d, a, ref) && FirstRoot(d, b, ref) && Reaches(Arcs(d), a, ref) && Reaches(Arcs(d), b, ref)
    ensures a == b
  {
    hide Arcs;
    if TraversalRoot(d, a, ref) {
      TraversalComesFirst(d, a, b, ref);
    } else if TraversalRoot(d, b, ref) {
      TraversalComesFirst(d, b, a, ref);
    } else {
      var i :| RootAt(d, i, a) && forall r :: RootBefore(d, i, r) ==> !Reaches(Arcs(d), r, ref);
      var j :| RootAt(d, j, b) && forall r :: RootBefore(d, j, r) ==> !Reaches(Arcs(d), r, ref);
      if i < j {
        EarlierReaches(d, i, a, j, ref);
      } else if j < i {
        EarlierReaches(d, j, b, i, ref);
      }
    }
  }

  /** Two first walks that agree up to a step take the same step. */
  lemma SameStep(d: Document, p: seq<string>, q: seq<string>, ref: string, i: nat)
    requires FirstWalk(d, p, ref) && FirstWalk(d, q, ref) && i < |p| && i < |q| && p[i] == q[i]
    ensures (p + [ref])[i + 1] == (q + [ref])[i + 1]
  {
    StepsReach(d, p, ref, i + 1);
    StepsReach(d, q, ref, i + 1);
    hide Arcs;
    assert FirstStep(d, p, ref, i) && FirstStep(d, q, ref, i);
  }

  lemma {:induction false} SamePrefix(d: Document, p: seq<string>, q: seq<string>, ref: string, i: nat)
    requires FirstWalk(d, p, ref) && FirstWalk(d, q, ref) && i <= |p| <= |q|
    ensures p[..i] == q[..i]
  {
    if i == 1 {
      StepsReach(d, p, ref, 0);
      StepsReach(d, q, ref, 0);
      OneFirstRoot(d, p[0], q[0], ref);
    } else if i > 1 {
      SamePrefix(d, p, q, ref, i - 1);
      assert p[i - 2] == p[..i - 1][i - 2] == q[i - 2];
      SameStep(d, p, q, ref, i - 2);
    }
  }

  /** A first walk goes on past the end of another only around a cycle. */
  lemma LongerIsCycle(d: Document, p: seq<string>, q: seq<string>, ref: string)
    requires FirstWalk(d, p, ref) && FirstWalk(d, q, ref) && |p| < |q|
    ensures OnCycle(Arcs(d), ref)
  {
    hide Arcs, FirstStep, FirstRoot;
    var n := |p|;
    SamePrefix(d, p, q, ref, n);
    assert p[n - 1] == p[..n][n - 1] == q[n - 1];
    SameStep(d, p, q, ref, n - 1);
    assert q[n] == ref;
    WalkBackIsCycle(Arcs(d), q, n);
  }

  /** Off cycles there is only one first walk to a reference, so only one parent it can give. */
  lemma OneFirstWalk(d: Document, p: seq<string>, q: seq<string>, ref: string)
    requires FirstWalk(d, p, ref) && FirstWalk(d, q, ref) && !OnCycle(Arcs(d), ref)
    ensures p == q
  {
    hide FirstWalk;
    if |p| < |q| {
      LongerIsCycle(d, p, q, ref);
    } else if |q| < |p| {
      LongerIsCycle(d, q, p, ref);
    } else {
      SamePrefix(d, p, q, ref, |p|);
      assert p[..|p|] == p && q[..|p|] == q;
    }
  }

  lemma TraversalRootIsNotLate(d: Document, ref: string)
    requires d.body == Some(ref) || d.furniture == Some(ref)
    ensures !LateRoot(d, ref)
  {
    hide Arcs;
    ReachesSelf(Arcs(d), ref);
    forall i ensures RootBefore(d, i, ref) {
    }
  }

  /** What is emitted is closed under children. */
  lemma FinishedIsClosed(d: Document, finished: seq<string>, a: string, b: string)
    requires FinishedSound(d, finished) && a in finished && Reaches(Arcs(d), a, b)
    ensures b in finished
  {
    var arcs := Arcs(d);
    var inside := iset r | r in finished;
    forall a, b | a in inside && (a, b) in arcs ensures b in inside {
      var i :| 0 <= i < |finished| && finished[i] == a;
      assert (b, finished[i]) in Flip(arcs);
    }
    ReachesStaysInside(arcs, inside, a, b);
  }

  lemma UnemittedIsLate(d: Document, finished: seq<string>, i: nat)
    requires FinishedSound(d, finished) && i < |d.order| && d.order[i] in d.refs && Labelled(d.refs[d.order[i]])
    requires d.order[i] !in finished && forall r :: RootBefore(d, i, r) ==> r in finished
    ensures LateRoot(d, d.order[i])
  {
    hide Arcs, FinishedSound;
    forall r | RootBefore(d, i, r) ensures !Reaches(Arcs(d), r, d.order[i]) {
      if Reaches(Arcs(d), r, d.order[i]) { FinishedIsClosed(d, finished, r, d.order[i]); }
    }
    assert LateAt(d, i, d.order[i]);
  }

  /** Marking a reference as emitted once all its children are. */
  lemma FinishKeeps(d: Document, active: set<string>, finished: seq<string>, output: seq<Out>, ref: string)
    requires Consistent(d, active + {ref}, finished, output) && ref !in active
    requires ref in d.refs && Sound(d, d.refs[ref]) && forall c :: c in d.refs[ref].children ==> c in finished
    ensures Consistent(d, active, finished + [ref], output)
  {
    var longer := finished + [ref];
    forall i, a | 0 <= i < |longer| && (a, longer[i]) in Flip(Arcs(d)) ensures a in longer[..i] {
      assert (longer[i], a) in Arcs(d);
      if i < |finished| {
        assert longer[..i] == finished[..i] && longer[i] == finished[i];
      } else {
        assert longer[..i] == finished;
      }
    }
    forall r ensures Shown(d, active, longer, output, r) {
      assert Shown(d, active + {ref}, finished, output, r);
    }
  }

  /** When every root is emitted, nothing visited is bad. */
  lemma AllEmittedMeansNoneBad(d: Document, finished: seq<string>)
    requires FinishedSound(d, finished) && forall r :: IsRoot(d, r) ==> r in finished
    ensures forall x, e :: Visited(d, x) ==> !Bad(d, x, e)
  {
    var arcs := Arcs(d);
    TopologicalHasNoCycle(Flip(arcs), finished);
    forall x, e | Visited(d, x) ensures !Bad(d, x, e) {
      var r :| IsRoot(d, r) && Reaches(arcs, r, x);
      FinishedIsClosed(d, finished, r, x);
      assert Sound(d, d.refs[x]) && !Faulty(d, d.refs[x], e);
      if OnCycle(arcs, x) {
        FlipKeepsCycles(arcs, x);
      }
    }
  }

  // ----- The traversal -----

  class Traversal {
    const doc: Document
    var active: set<string>
    var emitted: set<string>
    var output: seq<Out>
    ghost var finished: seq<string>

    constructor (doc: Document)
      ensures this.doc == doc && Valid() && active == {} && emitted == {}
    {
      this.doc := doc;
      active, emitted, output, finished := {}, {}, [], [];
    }

    ghost predicate Valid()
      reads this
    {
      Consistent(doc, active, finished, output) && forall r :: r in emitted <==> r in finished
    }

    /** Emit the element, and for a table its cells; the item is now active. */
    method Emit(ref: string, parent: Option<ElementId>) returns (error: Option<TraversalError>, childParent: Option<ElementId>)
      requires Valid() && ref in doc.refs && ref !in active && ref !in emitted
      requires (parent.Some? ==> HasId(output, parent.value)) && (Labelled(doc.refs[ref]) ==> ParentFits(doc, output, ref, parent))
      modifies this`active, this`output
      ensures error.Some? ==> Faulty(doc, doc.refs[ref], error.value)
      ensures error.None? ==>
        && Valid() && Sound(doc, doc.refs[ref]) && active == old(active) + {ref} && old(output) <= output
        && childParent == (if Labelled(doc.refs[ref]) then Some(OfItem(ref)) else parent)
        && (childParent.Some? ==> HasId(output, childParent.value))
    {
      active := active + {ref};
      var item := doc.refs[ref];
      childParent := parent;
      error := None;
      assert Shown(doc, old(active), finished, old(output), ref);
      if !Labelled(item) {
        if item.children == [] && item.text != "" {
          return Some(UnsupportedLabel), childParent;
        }
        ActivateUnlabelled(doc, old(active), finished, output, ref);
        return;
      }
      var kind := LABELS[item.tag];
      if kind == "Figure" && !CaptionsResolve(doc, item) {
        return Some(MissingCaption), childParent;
      }
      AppendOut(doc, output, Out(OfItem(ref), kind, item.text, parent));
      output := output + [Out(OfItem(ref), kind, item.text, parent)];
      childParent := Some(OfItem(ref));
      if kind == "Table" {
        var table := TableElements(item.cells, item.nrows, item.ncols);
        if table.Err? {
          return Some(BadTable), childParent;
        }
        NoCellsYet(doc, old(output), ref);
        output := AppendCells(doc, output, ref);
      }
      ActivateLabelled(doc, old(active), finished, old(output), output, ref);
    }

    method Visit(ref: string, parent: Option<ElementId>, ghost path: seq<string>, ghost turn: nat) returns (error: Option<TraversalError>)
      requires Valid() && OnPath(doc, active, path, ref)
      requires parent.Some? ==> HasId(output, parent.value)
      requires Turn(doc, emitted, turn, (path + [ref])[0])
      requires PathDone(doc, emitted, path, ref)
      requires path == [] ==> ref in doc.refs && (ref !in emitted ==> RootFits(doc, output, ref, parent))
      requires path != [] ==> parent == NearestLabelled(doc, path)
      modifies this`active, this`emitted, this`output, this`finished
      ensures error.Some? ==> exists x :: Visited(doc, x) && Bad(doc, x, error.value)
      ensures error.None? ==>
        Valid() && active == old(active) && ref in emitted && old(emitted) <= emitted && old(output) <= output
      decreases doc.refs.Keys - active, 1, 0
    {
      PathVisits(doc, active, path, ref);
      if ref in active {
        RepeatIsCycle(doc, active, path, ref);
        assert Bad(doc, ref, Cycle);
        return Some(Cycle);
      }
      if ref in emitted {
        return None;
      }
      if ref !in doc.refs {
        assert Bad(doc, ref, Dangling);
        return Some(Dangling);
      }
      if path != [] {
        assert Leads(doc, path, ref) && (path + [ref])[0] == path[0] && path[0] in active;
        MetBelowIsNoRoot(doc, emitted, turn, path, ref);
        MetOnFirstWalk(doc, finished, emitted, turn, path, ref);
      }
      var childParent;
      error, childParent := Emit(ref, parent);
      if error.Some? {
        assert Bad(doc, ref, error.value);
        return;
      }
      assert (path + [ref])[..|path|] == path;
      error := VisitChildren(ref, childParent, path, old(active), turn);
      if error.Some? {
        return;
      }
      FinishKeeps(doc, old(active), finished, output, ref);
      active := active - {ref};
      assert active == old(active);
      emitted := emitted + {ref};
      finished := finished + [ref];
    }

    method VisitChildren(ref: string, childParent: Option<ElementId>, ghost path: seq<string>, ghost outer: set<string>,
                         ghost turn: nat)
      returns (error: Option<TraversalError>)
      requires Valid() && ref in doc.refs && OnPath(doc, outer, path, ref) && active == outer + {ref} && ref !in outer
      requires childParent.Some? ==> HasId(output, childParent.value)
      requires childParent == NearestLabelled(doc, path + [ref]) && Turn(doc, emitted, turn, (path + [ref])[0])
      requires PathDone(doc, emitted, path, ref)
      modifies this`active, this`emitted, this`output, this`finished
      ensures error.Some? ==> exists x :: Visited(doc, x) && Bad(doc, x, error.value)
      ensures error.None? ==>
        && Valid() && active == old(active) && old(emitted) <= emitted && old(output) <= output
        && forall c :: c in doc.refs[ref].children ==> c in emitted
      decreases doc.refs.Keys - outer, 0, 0
    {
      hide Visited, Bad, OutputSound, FinishedSound, Arcs, LateRoot, RootFits;
      var children := doc.refs[ref].children;
      for i := 0 to |children|
        invariant Valid() && active == old(active) && old(emitted) <= emitted && old(output) <= output
        invariant childParent.Some? ==> HasId(output, childParent.value)
        invariant forall k :: 0 <= k < i ==> children[k] in emitted
      {
        assert children[i] in children;
        NextOnPath(doc, outer, path, ref, children[i]);
        ghost var before := output;
        assert (path + [ref] + [children[i]])[0] == (path + [ref])[0];
        PathStaysDone(doc, old(emitted), emitted, path, ref);
        PathGoesOn(doc, emitted, path, ref, i);
        error := Visit(children[i], childParent, path + [ref], turn);
        if error.Some? {
          return;
        }
        if childParent.Some? { IdStays(before, output, childParent.value); }
      }
      return None;
    }

    /** The traversal roots and the labelled references before the i-th are emitted. */
    ghost predicate RootsDone(i: nat)
      reads this
    {
      && Valid() && active == {}
      && (doc.body.Some? ==> doc.body.value in emitted) && (doc.furniture.Some? ==> doc.furniture.value in emitted)
      && forall k :: 0 <= k < i && k < |doc.order| && doc.order[k] in doc.refs && Labelled(doc.refs[doc.order[k]]) ==> doc.order[k] in emitted
    }

    /** The i-th reference's own turn. */
    method VisitTurn(i: nat) returns (error: Option<TraversalError>)
      requires RootsDone(i) && i < |doc.order| && doc.order[i] in doc.refs
      modifies this`active, this`emitted, this`output, this`finished
      ensures error.Some? ==> exists x :: Visited(doc, x) && Bad(doc, x, error.value)
      ensures error.None? ==> RootsDone(i + 1)
    {
      hide LateRoot, Bad, Fits, Arcs, FinishedSound;
      var ref := doc.order[i];
      var item := doc.refs[ref];
      if !Labelled(item) || ref in emitted {
        return None;
      }
      var parent: Option<ElementId> := None;
      if item.parent.Some? && item.parent.value in emitted && item.parent.value in doc.refs && Labelled(doc.refs[item.parent.value]) {
        parent := Some(OfItem(item.parent.value));
      }
      if item.parent.Some? {
        assert Shown(doc, active, finished, output, item.parent.value);
      }
      UnemittedIsLate(doc, finished, i);
      error := Visit(ref, parent, [], i);
    }
  }

  lemma IdStays(before: seq<Out>, after: seq<Out>, id: ElementId)
    requires before <= after && HasId(before, id)
    ensures HasId(after, id)
  {
    var i :| 0 <= i < |before| && before[i].id == id;
    assert after[i].id == id;
  }

  lemma ActivateUnlabelled(d: Document, active: set<string>, finished: seq<string>, output: seq<Out>, ref: string)
    requires Consistent(d, active, finished, output) && ref in d.refs && ref !in finished && !Labelled(d.refs[ref])
    ensures Consistent(d, active + {ref}, finished, output)
  {
    forall r ensures Shown(d, active + {ref}, finished, output, r) {
      assert Shown(d, active, finished, output, r);
    }
  }

  lemma ActivateLabelled(d: Document, active: set<string>, finished: seq<string>, before: seq<Out>, after: seq<Out>, ref: string)
    requires Consistent(d, active, finished, before) && ref in d.refs && ref !in finished && Labelled(d.refs[ref])
    requires OutputSound(d, after) && HasId(after, OfItem(ref)) && !HasId(before, OfItem(ref))
    requires forall id :: HasId(after, id) <==>
               HasId(before, id) || id == OfItem(ref) || (id.OfCell? && id.ref == ref && IsTable(d, ref) && id.index < |d.refs[ref].cells|)
    ensures Consistent(d, active + {ref}, finished, after)
  {
    forall r ensures Shown(d, active + {ref}, finished, after, r) {
      assert Shown(d, active, finished, before, r);
    }
    forall r, k: nat ensures CellsShown(d, after, r, k) {
      assert CellsShown(d, before, r, k);
    }
  }

  lemma NoCellsYet(d: Document, output: seq<Out>, ref: string)
    requires !HasId(output, OfItem(ref)) && forall r, k: nat {:trigger CellsShown(d, output, r, k)} :: CellsShown(d, output, r, k)
    ensures forall k :: !HasId(output, OfCell(ref, k))
  {
    forall k ensures !HasId(output, OfCell(ref, k)) {
      assert CellsShown(d, output, ref, k);
    }
  }

  /** A table's cells follow the table itself, each under it. */
  method AppendCells(d: Document, output0: seq<Out>, ref: string) returns (output: seq<Out>)
    requires OutputSound(d, output0) && HasId(output0, OfItem(ref)) && IsTable(d, ref)
    requires forall k :: !HasId(output0, OfCell(ref, k))
    ensures OutputSound(d, output) && output0 <= output
    ensures forall id :: HasId(output, id) <==>
              HasId(output0, id) || (id.OfCell? && id.ref == ref && id.index < |d.refs[ref].cells|)
  {
    output := output0;
    var cells := d.refs[ref].cells;
    for i := 0 to |cells|
      invariant OutputSound(d, output) && output0 <= output
      invariant forall id :: HasId(output, id) <==> HasId(output0, id) || (id.OfCell? && id.ref == ref && id.index < i)
    {
      var o := Out(OfCell(ref, i), "TableCell", cells[i].text, Some(OfItem(ref)));
      AppendOut(d, output, o);
      output := output + [o];
    }
  }

  // ----- The whole conversion -----

  /** Exactly the labelled items and the cells of the tables among them, once each, every
      element after its parent and saying what its item says. */
  ghost predicate Complete(d: Document, output: seq<Out>) {
    && OutputSound(d, output)
    && (forall r :: HasId(output, OfItem(r)) <==> r in d.refs && Labelled(d.refs[r]))
    && (forall r, k: nat :: HasId(output, OfCell(r, k)) <==> IsTable(d, r) && k < |d.refs[r].cells|)
  }

  lemma EmittedIsComplete(d: Document, finished: seq<string>, output: seq<Out>)
    requires WellFormed(d) && Consistent(d, {}, finished, output) && forall r :: IsRoot(d, r) ==> r in finished
    ensures Complete(d, output)
  {
    forall r ensures HasId(output, OfItem(r)) <==> r in d.refs && Labelled(d.refs[r]) {
      assert Shown(d, {}, finished, output, r);
    }
    forall r, k: nat ensures HasId(output, OfCell(r, k)) <==> IsTable(d, r) && k < |d.refs[r].cells| {
      assert CellsShown(d, output, r, k);
    }
  }

  method FromDocling(d: Document) returns (r: Result<seq<Out>, TraversalError>)
    requires WellFormed(d)
    ensures r.Err? <==> exists x, e :: Visited(d, x) && Bad(d, x, e)
    ensures r.Err? ==> exists x :: Visited(d, x) && Bad(d, x, r.error)
    ensures r.Ok? ==> Complete(d, r.value)
  {
    hide Complete, LateRoot, Bad, Fits, Arcs;
    var t := new Traversal(d);
    if d.body.Some? {
      TraversalRootIsNotLate(d, d.body.value);
      var error := t.Visit(d.body.value, None, [], 0);
      if error.Some? { return Err(error.value); }
    }
    if d.furniture.Some? {
      TraversalRootIsNotLate(d, d.furniture.value);
      if d.body.Some? && Reaches(Arcs(d), d.body.value, d.furniture.value) {
        FinishedIsClosed(d, t.finished, d.body.value, d.furniture.value);
      }
      var error := t.Visit(d.furniture.value, None, [], 0);
      if error.Some? { return Err(error.value); }
    }
    for i := 0 to |d.order|
      invariant t.doc == d && t.RootsDone(i)
    {
      var error := t.VisitTurn(i);
      if error.Some? { return Err(error.value); }
    }
    AllEmittedMeansNoneBad(d, t.finished);
    EmittedIsComplete(d, t.finished, t.output);
    return Ok(t.output);
  }

  // ----- Element kinds -----

  /** The kind an item of this tag becomes; page content and marks alike stay paragraphs. */
  ghost predicate KindOfTag(tag: string, kind: string) {
    && (kind == "Title" <==> tag == "title") && (kind == "SectionHeader" <==> tag == "section_header")
    && (kind == "Paragraph" <==>
          tag == "text" || tag == "paragraph" || tag == "reference" || tag == "checkbox_selected" || tag == "checkbox_unselected")
    && (kind == "ListItem" <==> tag == "list_item") && (kind == "Table" <==> tag == "table")
    && (kind == "Figure" <==> tag == "picture") && (kind == "Formula" <==> tag == "formula") && (kind == "Code" <==> tag == "code")
    && (kind == "Header" <==> tag == "page_header") && (kind == "Footer" <==> tag == "page_footer")
    && (kind == "PageBreak" <==> tag == "page_break") && (kind == "Footnote" <==> tag == "footnote")
    && (kind == "Caption" <==> tag == "caption") && kind != "TableCell" && kind in DocTree.KINDS
  }

  lemma LabelsMean(tag: string)
    requires tag in LABELS
    ensures KindOfTag(tag, LABELS[tag])
  {
  }

  /** Every element that is emitted has a kind the element tree accepts, given by its item's tag, and
      table cells are the only elements that are no items. */
  lemma OutputKinds(d: Document, output: seq<Out>, i: nat)
    requires OutputSound(d, output) && i < |output|
    ensures match output[i].id
            case OfItem(ref) => ref in d.refs && KindOfTag(d.refs[ref].tag, output[i].kind)
            case OfCell(ref, k) => ref in d.refs && d.refs[ref].tag == "table" && output[i].kind == "TableCell" && "TableCell" in DocTree.KINDS
  {
    hide KindOfTag, ParentFits;
    assert FitsAt(d, output, i);
    match output[i].id
    case OfItem(ref) => LabelsMean(d.refs[ref].tag);
    case OfCell(ref, k) => OnlyTables(d.refs[ref].tag);
  }

  lemma OnlyTables(tag: string)
    requires tag in LABELS && LABELS[tag] == "Table"
    ensures tag == "table"
  {
    LabelsMean(tag);
  }
}
