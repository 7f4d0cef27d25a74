// Walks, reachability and cycles over a finite set of arcs.

module Graphs {

  ghost predicate ArcAt<T>(arcs: set<(T, T)>, w: seq<T>, i: int) {
    0 <= i < |w| - 1 && (w[i], w[i + 1]) in arcs
  }

  ghost predicate IsWalk<T>(arcs: set<(T, T)>, w: seq<T>) {
    |w| != 0 && forall i {:trigger ArcAt(arcs, w, i)} :: 0 <= i < |w| - 1 ==> ArcAt(arcs, w, i)
  }

  ghost predicate Joins<T>(arcs: set<(T, T)>, w: seq<T>, a: T, b: T) {
    IsWalk(arcs, w) && w[0] == a && w[|w| - 1] == b
  }

  /** b can be reached from a along zero or more arcs. */
  ghost predicate Reaches<T(!new)>(arcs: set<(T, T)>, a: T, b: T) {
    exists w :: Joins(arcs, w, a, b)
  }

  /** a lies on a closed walk of at least one arc; a self-loop counts. */
  ghost predicate OnCycle<T(!new)>(arcs: set<(T, T)>, a: T) {
    exists w :: Joins(arcs, w, a, a) && |w| >= 2
  }

  ghost predicate Cyclic<T(!new)>(arcs: set<(T, T)>) {
    exists a :: OnCycle(arcs, a)
  }

  ghost predicate Symmetric<T(!new)>(arcs: set<(T, T)>) {
    forall a, b :: (a, b) in arcs ==> (b, a) in arcs
  }

  ghost function Flip<T>(arcs: set<(T, T)>): set<(T, T)> {
    set p | p in arcs :: (p.1, p.0)
  }

  lemma SubwalkIsWalk<T>(arcs: set<(T, T)>, w: seq<T>, lo: nat, hi: nat)
    requires IsWalk(arcs, w) && lo < hi <= |w|
    ensures IsWalk(arcs, w[lo..hi])
  {
    forall i | 0 <= i < hi - lo - 1 ensures ArcAt(arcs, w[lo..hi], i) {
      assert ArcAt(arcs, w, lo + i);
    }
  }

  lemma ReachesSelf<T(!new)>(arcs: set<(T, T)>, a: T)
    ensures Reaches(arcs, a, a)
  {
    assert Joins(arcs, [a], a, a);
  }

  lemma ReachesTransitive<T(!new)>(arcs: set<(T, T)>, a: T, b: T, c: T)
    requires Reaches(arcs, a, b) && Reaches(arcs, b, c)
    ensures Reaches(arcs, a, c)
  {
    var v :| Joins(arcs, v, a, b);
    var w :| Joins(arcs, w, b, c);
    var both := v + w[1..];
    forall i | 0 <= i < |both| - 1 ensures ArcAt(arcs, both, i) {
      if i < |v| - 1 {
        assert ArcAt(arcs, v, i);
      } else {
        assert ArcAt(arcs, w, i - |v| + 1);
      }
    }
    assert Joins(arcs, both, a, c);
  }

  lemma ReachesArc<T(!new)>(arcs: set<(T, T)>, a: T, b: T)
    requires (a, b) in arcs
    ensures Reaches(arcs, a, b)
  {
    assert Joins(arcs, [a, b], a, b);
  }

  lemma ReachesMonotone<T(!new)>(arcs: set<(T, T)>, more: set<(T, T)>, a: T, b: T)
    requires arcs <= more && Reaches(arcs, a, b)
    ensures Reaches(more, a, b)
  {
    var w :| Joins(arcs, w, a, b);
    forall i | 0 <= i < |w| - 1 ensures ArcAt(more, w, i) {
      assert ArcAt(arcs, w, i);
    }
    assert Joins(more, w, a, b);
  }

  ghost function Reversed<T>(w: seq<T>): (r: seq<T>)
    ensures |r| == |w| && forall i :: 0 <= i < |w| ==> r[i] == w[|w| - 1 - i]
  {
    seq(|w|, i requires 0 <= i < |w| => w[|w| - 1 - i])
  }

  lemma ReversedJoins<T>(arcs: set<(T, T)>, w: seq<T>, a: T, b: T)
    requires Joins(arcs, w, a, b)
    ensures Joins(Flip(arcs), Reversed(w), b, a)
  {
    var r := Reversed(w);
    forall i | 0 <= i < |r| - 1 ensures ArcAt(Flip(arcs), r, i) {
      var k := |w| - 2 - i;
      assert ArcAt(arcs, w, k);
      assert (w[k], w[k + 1]) in arcs;
    }
  }

  lemma ReachesSymmetric<T(!new)>(arcs: set<(T, T)>, a: T, b: T)
    requires Symmetric(arcs) && Reaches(arcs, a, b)
    ensures Reaches(arcs, b, a)
  {
    var w :| Joins(arcs, w, a, b);
    ReversedJoins(arcs, w, a, b);
    assert Flip(arcs) <= arcs;
    ReachesMonotone(Flip(arcs), arcs, b, a);
  }

  ghost predicate ClosedUnder<T(!new)>(arcs: set<(T, T)>, s: iset<T>) {
    forall a, b :: a in s && (a, b) in arcs ==> b in s
  }

  lemma {:induction false} WalkStaysInside<T(!new)>(arcs: set<(T, T)>, s: iset<T>, w: seq<T>)
    requires ClosedUnder(arcs, s) && IsWalk(arcs, w) && w[0] in s
    ensures w[|w| - 1] in s
  {
    if |w| > 1 {
      assert ArcAt(arcs, w, 0);
      SubwalkIsWalk(arcs, w, 1, |w|);
      assert w[1..|w|] == w[1..];
      WalkStaysInside(arcs, s, w[1..]);
    }
  }

  lemma ReachesStaysInside<T(!new)>(arcs: set<(T, T)>, s: iset<T>, a: T, b: T)
    requires ClosedUnder(arcs, s) && a in s && Reaches(arcs, a, b)
    ensures b in s
  {
    var w :| Joins(arcs, w, a, b);
    WalkStaysInside(arcs, s, w);
  }

  /** Every arc into an entry of the list starts at an earlier entry. */
  ghost predicate Topological<T(!new)>(arcs: set<(T, T)>, order: seq<T>) {
    forall i, a :: 0 <= i < |order| && (a, order[i]) in arcs ==> a in order[..i]
  }

  lemma {:induction false} EarlierAncestor<T(!new)>(arcs: set<(T, T)>, order: seq<T>, w: seq<T>, i: nat)
    requires Topological(arcs, order) && i < |order|
    requires IsWalk(arcs, w) && |w| >= 2 && w[|w| - 1] == order[i]
    ensures w[0] in order[..i]
  {
    var a := w[|w| - 2];
    assert ArcAt(arcs, w, |w| - 2);
    assert (a, order[i]) in arcs;
    var j :| 0 <= j < i && order[j] == a;
    if |w| > 2 {
      SubwalkIsWalk(arcs, w, 0, |w| - 1);
      assert w[0..|w| - 1] == w[..|w| - 1];
      EarlierAncestor(arcs, order, w[..|w| - 1], j);
    }
  }

  lemma {:induction false} TopologicalDescent<T(!new)>(arcs: set<(T, T)>, order: seq<T>, w: seq<T>, i: nat)
    requires Topological(arcs, order) && i < |order|
    requires Joins(arcs, w, order[i], order[i]) && |w| >= 2
    ensures false
    decreases i
  {
    EarlierAncestor(arcs, order, w, i);
    var j :| 0 <= j < i && order[j] == w[0];
    TopologicalDescent(arcs, order, w, j);
  }

  lemma TopologicalHasNoCycle<T(!new)>(arcs: set<(T, T)>, order: seq<T>)
    requires Topological(arcs, order)
    ensures forall a :: a in order ==> !OnCycle(arcs, a)
  {
    forall a | a in order && OnCycle(arcs, a) ensures false {
      var i :| 0 <= i < |order| && order[i] == a;
      var w :| Joins(arcs, w, a, a) && |w| >= 2;
      TopologicalDescent(arcs, order, w, i);
    }
  }

  lemma FlipKeepsCycles<T(!new)>(arcs: set<(T, T)>, a: T)
    requires OnCycle(arcs, a)
    ensures OnCycle(Flip(arcs), a)
  {
    var w :| Joins(arcs, w, a, a) && |w| >= 2;
    ReversedJoins(arcs, w, a, a);
  }

  ghost predicate HasPredecessor<T(!new)>(arcs: set<(T, T)>, s: set<T>, b: T) {
    exists a :: a in s && (a, b) in arcs
  }

  lemma {:induction false} GrowBackwards<T(!new)>(arcs: set<(T, T)>, s: set<T>, w: seq<T>)
    requires forall b :: b in s ==> HasPredecessor(arcs, s, b)
    requires IsWalk(arcs, w) && forall i :: 0 <= i < |w| ==> w[i] in s
    ensures Cyclic(arcs)
    decreases s - set x | x in w
  {
    assert w[0] in s && HasPredecessor(arcs, s, w[0]);
    var a :| a in s && (a, w[0]) in arcs;
    var longer := [a] + w;
    forall i | 0 <= i < |longer| - 1 ensures ArcAt(arcs, longer, i) {
      assert i == 0 || ArcAt(arcs, w, i - 1);
    }
    if a in w {
      var k :| 0 <= k < |w| && w[k] == a;
      SubwalkIsWalk(arcs, longer, 0, k + 2);
      assert longer[0..k + 2] == longer[..k + 2];
      assert Joins(arcs, longer[..k + 2], a, a);
      assert OnCycle(arcs, a);
    } else {
      assert a in (s - set x | x in w) && a !in (s - set x | x in longer);
      GrowBackwards(arcs, s, longer);
    }
  }

  /** A non-empty finite set in which everything has a predecessor contains a cycle. */
  lemma PredecessorsForceCycle<T(!new)>(arcs: set<(T, T)>, s: set<T>)
    requires s != {}
    requires forall b :: b in s ==> HasPredecessor(arcs, s, b)
    ensures Cyclic(arcs)
  {
    var a :| a in s;
    GrowBackwards(arcs, s, [a]);
  }
}
