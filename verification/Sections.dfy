// Heading placement: flat parser output gets parents from the headings before it.

module Sections {
  import opened Common
  import opened Forests
  import opened DocTree

  const UNPLACED_KINDS: set<string> := {"Title", "Header", "Footer", "PageBreak"}

  predicate IsHeading(e: Element) {
    e.kind == "SectionHeader"
  }

  /** The closest heading before position i whose level is strictly below the given one; -1 if none. */
  function ClosestHeading(elements: seq<Element>, i: nat, level: int): (j: int)
    requires i <= |elements|
    ensures -1 <= j < i
    ensures j >= 0 ==> IsHeading(elements[j]) && elements[j].level < level
    ensures forall k :: j < k < i ==> !(IsHeading(elements[k]) && elements[k].level < level)
  {
    if i == 0 then -1
    else if IsHeading(elements[i - 1]) && elements[i - 1].level < level then i - 1
    else ClosestHeading(elements, i - 1, level)
  }

  /** The closest heading before position i, whatever its level; -1 if none. */
  function LastHeading(elements: seq<Element>, i: nat): (j: int)
    requires i <= |elements|
    ensures -1 <= j < i
    ensures j >= 0 ==> IsHeading(elements[j])
    ensures forall k :: j < k < i ==> !IsHeading(elements[k])
  {
    if i == 0 then -1 else if IsHeading(elements[i - 1]) then i - 1 else LastHeading(elements, i - 1)
  }

  function IdAt(elements: seq<Element>, j: int): Option<string>
    requires j < |elements|
  {
    if j < 0 then None else Some(elements[j].id)
  }

  /** The parent an element ends up with. */
  function PlacedParent(elements: seq<Element>, i: nat): Option<string>
    requires i < |elements|
  {
    var e := elements[i];
    if e.parent.Some? then e.parent
    else if IsHeading(e) then IdAt(elements, ClosestHeading(elements, i, e.level))
    else if e.kind in UNPLACED_KINDS then None
    else IdAt(elements, LastHeading(elements, i))
  }

  function Placed(elements: seq<Element>): (r: seq<Element>)
    ensures |r| == |elements|
  {
    seq(|elements|, i requires 0 <= i < |elements| => elements[i].(parent := PlacedParent(elements, i)))
  }

  /** The stack entry left on top after dropping those at or above a level. */
  function TopBelow(sections: seq<(int, string)>, level: int): Option<string> {
    if sections == [] then None
    else
      var top := sections[|sections| - 1];
      if top.0 < level then Some(top.1) else TopBelow(sections[..|sections| - 1], level)
  }

  function Popped(sections: seq<(int, string)>, level: int): seq<(int, string)> {
    if sections != [] && sections[|sections| - 1].0 >= level then Popped(sections[..|sections| - 1], level) else sections
  }

  lemma {:induction false} PoppingKeepsLower(sections: seq<(int, string)>, level: int, lower: int)
    requires lower <= level
    ensures TopBelow(Popped(sections, level), lower) == TopBelow(sections, lower)
    ensures TopBelow(sections, level) ==
            if Popped(sections, level) == [] then None else Some(Popped(sections, level)[|Popped(sections, level)| - 1].1)
  {
    if sections != [] && sections[|sections| - 1].0 >= level {
      PoppingKeepsLower(sections[..|sections| - 1], level, lower);
    }
  }

  function Top(sections: seq<(int, string)>): Option<string> {
    if sections == [] then None else Some(sections[|sections| - 1].1)
  }

  /** The stack answers every question about closest headings. */
  ghost predicate StackTracks(sections: seq<(int, string)>, elements: seq<Element>, i: nat)
    requires i <= |elements|
  {
    && Top(sections) == IdAt(elements, LastHeading(elements, i))
    && forall level :: TopBelow(sections, level) == IdAt(elements, ClosestHeading(elements, i, level))
  }

  lemma PushTracks(sections: seq<(int, string)>, elements: seq<Element>, i: nat)
    requires i < |elements| && IsHeading(elements[i]) && StackTracks(sections, elements, i)
    ensures StackTracks(Popped(sections, elements[i].level) + [(elements[i].level, elements[i].id)], elements, i + 1)
  {
    var e := elements[i];
    var below := Popped(sections, e.level);
    var pushed := below + [(e.level, e.id)];
    assert pushed[..|pushed| - 1] == below;
    forall level ensures TopBelow(pushed, level) == IdAt(elements, ClosestHeading(elements, i + 1, level)) {
      if level <= e.level {
        PoppingKeepsLower(sections, e.level, level);
      }
    }
  }

  method SectionHierarchy(elements: seq<Element>) returns (output: seq<Element>)
    ensures output == Placed(elements)
  {
    var sections: seq<(int, string)> := [];
    output := [];
    for i := 0 to |elements|
      invariant StackTracks(sections, elements, i)
      invariant |output| == i && forall k :: 0 <= k < i ==> output[k] == Placed(elements)[k]
    {
      var e := elements[i];
      var placed := e;
      if IsHeading(e) {
        ghost var before := sections;
        while sections != [] && sections[|sections| - 1].0 >= e.level
          invariant Popped(sections, e.level) == Popped(before, e.level)
          decreases |sections|
        {
          sections := sections[..|sections| - 1];
        }
        PoppingKeepsLower(before, e.level, e.level);
        if e.parent.None? && sections != [] {
          placed := e.(parent := Some(sections[|sections| - 1].1));
        }
        assert e.parent.None? && sections == [] ==> placed == e.(parent := None);
        sections := sections + [(e.level, e.id)];
        PushTracks(before, elements, i);
      } else {
        if e.kind !in UNPLACED_KINDS && e.parent.None? && sections != [] {
          placed := e.(parent := Some(sections[|sections| - 1].1));
        }
      }
      output := output + [placed];
    }
  }

  /** Every explicit parent is an earlier element. */
  ghost predicate PointsBack(elements: seq<Element>) {
    forall i :: 0 <= i < |elements| && elements[i].parent.Some? ==> HasEarlier(elements, i, elements[i].parent.value)
  }

  ghost predicate HasEarlier(elements: seq<Element>, i: int, id: string) {
    exists j :: 0 <= j < i && j < |elements| && elements[j].id == id
  }

  lemma PlacementPointsBack(elements: seq<Element>)
    requires PointsBack(elements)
    ensures PointsBack(Placed(elements))
  {
    var r := Placed(elements);
    forall i | 0 <= i < |r| && r[i].parent.Some? ensures HasEarlier(r, i, r[i].parent.value) {
      var j := if elements[i].parent.Some? then EarlierIndex(elements, i)
               else if IsHeading(elements[i]) then ClosestHeading(elements, i, elements[i].level)
               else LastHeading(elements, i);
      assert r[j].id == elements[j].id;
    }
  }

  ghost function EarlierIndex(elements: seq<Element>, i: nat): (j: int)
    requires i < |elements| && elements[i].parent.Some? && HasEarlier(elements, i, elements[i].parent.value)
    ensures 0 <= j < i && elements[j].id == elements[i].parent.value
  {
    var j :| 0 <= j < i && j < |elements| && elements[j].id == elements[i].parent.value;
    j
  }

  /** Parents that point back form a forest, ranked by position. */
  lemma PointingBackIsForest(elements: seq<Element>)
    requires PointsBack(elements) && UniqueIds(elements)
    ensures Forest(ParentsOf(elements))
  {
    var p := ParentsOf(elements);
    ParentsKeys(elements);
    IdsAre(elements);
    var rank := map k | k in p :: PositionOf(elements, k);
    forall k | k in p ensures RankedAt(p, rank, k) {
      var i := PositionOf(elements, k);
      ParentsAt(elements, i);
      if p[k].Some? {
        var j := EarlierIndex(elements, i);
        assert PositionOf(elements, elements[j].id) == j;
      }
    }
    assert Ranks(p, rank);
  }

  ghost function PositionOf(elements: seq<Element>, id: string): (i: nat)
    requires id in IdSet(elements)
    ensures i < |elements| && elements[i].id == id
    ensures UniqueIds(elements) ==> forall j :: 0 <= j < |elements| && elements[j].id == id ==> j == i
  {
    HasPosition(elements, id);
    var i: nat :| i < |elements| && elements[i].id == id;
    i
  }

  lemma HasPosition(elements: seq<Element>, id: string)
    requires id in IdSet(elements)
    ensures exists i: nat :: i < |elements| && elements[i].id == id
  {
    var i := IndexOfId(elements, id);
    assert i < |elements| && elements[i].id == id;
  }

  /** Placing headings under flat output whose explicit parents point back always gives a forest. */
  lemma PlacementIsForest(elements: seq<Element>)
    requires PointsBack(elements) && UniqueIds(elements)
    ensures Forest(ParentsOf(Placed(elements)))
  {
    PlacementPointsBack(elements);
    forall i, j | 0 <= i < j < |elements| ensures Placed(elements)[i].id != Placed(elements)[j].id {
      assert elements[i].id != elements[j].id;
    }
    PointingBackIsForest(Placed(elements));
  }

  /** A heading the element may be placed under: any, or for a heading one of smaller level. */
  predicate Shelters(h: Element, e: Element) {
    h.kind == "SectionHeader" && (e.kind == "SectionHeader" ==> h.level < e.level)
  }

  predicate StaysOut(e: Element) {
    e.kind == "Title" || e.kind == "Header" || e.kind == "Footer" || e.kind == "PageBreak"
  }

  /** Placement changes parents alone, and only where there was none: content goes under the closest
      heading before it that may hold it, if there is one. */
  lemma PlacementMeans(elements: seq<Element>, i: nat)
    requires i < |elements|
    ensures var e, t := elements[i], Placed(elements)[i];
            && t == e.(parent := t.parent)
            && (e.parent.Some? ==> t.parent == e.parent)
            && (e.parent.None? && StaysOut(e) ==> t.parent.None?)
            && (e.parent.None? && !StaysOut(e) ==>
                  && (t.parent.None? <==> forall j :: 0 <= j < i ==> !Shelters(elements[j], e))
                  && (t.parent.Some? ==>
                        exists j :: 0 <= j < i && elements[j].id == t.parent.value && Shelters(elements[j], e)
                                    && forall k :: j < k < i ==> !Shelters(elements[k], e)))
  {
    var e := elements[i];
    if e.parent.None? && !StaysOut(e) {
      var j := if IsHeading(e) then ClosestHeading(elements, i, e.level) else LastHeading(elements, i);
      assert forall k :: j < k < i ==> !Shelters(elements[k], e);
      if j >= 0 { assert Shelters(elements[j], e); }
    }
  }
}
