// Orders and sorting: string comparison by code point, stable sorting by a key
// order, and the sorted listing of a finite set.

module Ordering {

  /** Strict lexicographic order on code points. */
  predicate Less(a: string, b: string) {
    |b| != 0 && (|a| == 0 || a[0] < b[0] || (a[0] == b[0] && Less(a[1..], b[1..])))
  }

  predicate Leq(a: string, b: string) {
    a == b || Less(a, b)
  }

  /** The texts agree up to k, where the first ends or has the smaller code point. */
  ghost predicate FirstDiffer(a: string, b: string, k: nat) {
    k <= |a| && k < |b| && a[..k] == b[..k] && (k == |a| || a[k] < b[k])
  }

  lemma {:induction false} LessMeans(a: string, b: string)
    ensures Less(a, b) <==> exists k: nat :: FirstDiffer(a, b, k)
  {
    if Less(a, b) {
      if |a| == 0 || a[0] < b[0] {
        assert FirstDiffer(a, b, 0);
      } else {
        LessMeans(a[1..], b[1..]);
        var k: nat :| FirstDiffer(a[1..], b[1..], k);
        assert a[..k + 1] == [a[0]] + a[1..][..k] && b[..k + 1] == [b[0]] + b[1..][..k];
        assert FirstDiffer(a, b, k + 1);
      }
    } else if k: nat :| FirstDiffer(a, b, k) {
      assert k > 0 && a[0] == a[..k][0] && b[0] == b[..k][0];
      assert a[1..][..k - 1] == a[..k][1..] && b[1..][..k - 1] == b[..k][1..];
      assert FirstDiffer(a[1..], b[1..], k - 1);
      LessMeans(a[1..], b[1..]);
    }
  }

  lemma {:induction false} LessTrichotomy(a: string, b: string)
    ensures Less(a, b) || a == b || Less(b, a)
    ensures !(Less(a, b) && Less(b, a))
    ensures !Less(a, a)
  {
    if |a| != 0 && |b| != 0 && a[0] == b[0] {
      LessTrichotomy(a[1..], b[1..]);
      assert a == [a[0]] + a[1..] && b == [b[0]] + b[1..];
    }
    if |a| != 0 {
      LessTrichotomy(a[1..], a[1..]);
    }
  }

  lemma {:induction false} LessTransitive(a: string, b: string, c: string)
    requires Less(a, b) && Less(b, c)
    ensures Less(a, c)
  {
    if |a| != 0 && a[0] == b[0] && b[0] == c[0] {
      LessTransitive(a[1..], b[1..], c[1..]);
    }
  }

  /** The order facts, quantified for use inside larger proofs. */
  lemma StringOrder()
    ensures forall a, b :: Less(a, b) || a == b || Less(b, a)
    ensures forall a, b :: Less(a, b) ==> !Less(b, a) && a != b
    ensures forall a, b, c :: Less(a, b) && Less(b, c) ==> Less(a, c)
  {
    forall a, b
      ensures (Less(a, b) || a == b || Less(b, a)) && (Less(a, b) ==> !Less(b, a) && a != b)
    {
      LessTrichotomy(a, b);
    }
    forall a, b, c | Less(a, b) && Less(b, c) ensures Less(a, c) {
      LessTransitive(a, b, c);
    }
  }

  ghost predicate Linked<T>(leq: (T, T) -> bool, a: T, b: T, c: T) {
    leq(a, b) && leq(b, c)
  }

  ghost predicate TotalPreorder<T(!new)>(leq: (T, T) -> bool) {
    && (forall a, b :: leq(a, b) || leq(b, a))
    && (forall a, b, c {:trigger Linked(leq, a, b, c)} :: Linked(leq, a, b, c) ==> leq(a, c))
  }

  ghost predicate TotalOrder<T(!new)>(leq: (T, T) -> bool) {
    TotalPreorder(leq) && forall a, b :: leq(a, b) && leq(b, a) ==> a == b
  }

  lemma LeqIsTotal()
    ensures TotalOrder(Leq)
  {
    StringOrder();
  }

  /** Lexicographic order on pairs of strings. */
  predicate PairLeq(p: (string, string), q: (string, string)) {
    Less(p.0, q.0) || (p.0 == q.0 && Leq(p.1, q.1))
  }

  lemma PairLeqIsTotal()
    ensures TotalOrder(PairLeq)
  {
    StringOrder();
  }

  ghost predicate Tied<T>(leq: (T, T) -> bool, a: T, b: T) {
    leq(a, b) && leq(b, a)
  }

  /** No two different elements of the list compare equal. */
  ghost predicate TellsApart<T(!new)>(leq: (T, T) -> bool, s: seq<T>) {
    forall a, b {:trigger Tied(leq, a, b)} :: a in s && b in s && Tied(leq, a, b) ==> a == b
  }

  ghost predicate SortedBy<T>(leq: (T, T) -> bool, s: seq<T>) {
    forall i, j :: 0 <= i < j < |s| ==> leq(s[i], s[j])
  }

  lemma HeadBelowAll<T(!new)>(leq: (T, T) -> bool, x: T, s: seq<T>)
    requires TotalPreorder(leq) && SortedBy(leq, s) && s != [] && leq(x, s[0])
    ensures SortedBy(leq, [x] + s)
  {
    forall k | 0 <= k < |s| ensures leq(x, s[k]) {
      assert k == 0 || Linked(leq, x, s[0], s[k]);
    }
  }

  lemma HeadBelowRest<T(!new)>(leq: (T, T) -> bool, s: seq<T>, r: seq<T>, x: T)
    requires SortedBy(leq, s) && SortedBy(leq, r) && s != [] && leq(s[0], x)
    requires forall y :: y in r ==> y == x || y in s[1..]
    ensures SortedBy(leq, [s[0]] + r)
  {
    forall k | 0 <= k < |r| ensures leq(s[0], r[k]) {
      assert r[k] in r;
    }
  }

  function Insert<T(!new)>(leq: (T, T) -> bool, x: T, s: seq<T>): (r: seq<T>)
    requires TotalPreorder(leq) && SortedBy(leq, s)
    ensures SortedBy(leq, r)
    ensures multiset(r) == multiset(s) + multiset{x}
    ensures forall y :: y in r ==> y == x || y in s
  {
    if s == [] then [x]
    else if leq(x, s[0]) then
      HeadBelowAll(leq, x, s);
      [x] + s
    else
      var rest := Insert(leq, x, s[1..]);
      HeadBelowRest(leq, s, rest, x);
      assert s == [s[0]] + s[1..];
      [s[0]] + rest
  }

  /** A stable sort, as the standard library's sorted() is. */
  function SortBy<T(!new)>(leq: (T, T) -> bool, s: seq<T>): (r: seq<T>)
    requires TotalPreorder(leq)
    ensures SortedBy(leq, r)
    ensures multiset(r) == multiset(s)
  {
    if s == [] then []
    else
      assert s == [s[0]] + s[1..];
      Insert(leq, s[0], SortBy(leq, s[1..]))
  }

  lemma SameHead<T(!new)>(leq: (T, T) -> bool, s: seq<T>, t: seq<T>)
    requires SortedBy(leq, s) && SortedBy(leq, t) && s != [] && t != []
    requires multiset(s) == multiset(t) && TellsApart(leq, s)
    ensures s[0] == t[0]
  {
    assert s[0] in multiset(t) && t[0] in multiset(s);
    assert s[0] == t[0] || Tied(leq, s[0], t[0]);
  }

  lemma WithoutHead<T>(s: seq<T>)
    requires s != []
    ensures multiset(s[1..]) == multiset(s) - multiset{s[0]}
  {
    assert s == [s[0]] + s[1..];
  }

  /** Two sorted arrangements of the same elements agree when the order tells the elements apart. */
  lemma {:induction false} SortedUnique<T(!new)>(leq: (T, T) -> bool, s: seq<T>, t: seq<T>)
    requires SortedBy(leq, s) && SortedBy(leq, t)
    requires multiset(s) == multiset(t)
    requires TellsApart(leq, s)
    ensures s == t
  {
    assert |s| == |multiset(s)| == |multiset(t)| == |t|;
    if s != [] {
      SameHead(leq, s, t);
      WithoutHead(s);
      WithoutHead(t);
      SortedUnique(leq, s[1..], t[1..]);
      assert s == [s[0]] + s[1..] && t == [t[0]] + t[1..];
    }
  }

  /** Sorting forgets the input order. */
  lemma SortPermutation<T(!new)>(leq: (T, T) -> bool, s: seq<T>, t: seq<T>)
    requires TotalPreorder(leq)
    requires multiset(s) == multiset(t)
    requires TellsApart(leq, s)
    ensures SortBy(leq, s) == SortBy(leq, t)
  {
    var r := SortBy(leq, s);
    forall a | a in r ensures a in s {
      assert a in multiset(r) && a in multiset(s);
    }
    SortedUnique(leq, r, SortBy(leq, t));
  }

  ghost predicate IsLeast<T(!new)>(leq: (T, T) -> bool, m: T, s: set<T>) {
    m in s && forall x :: x in s ==> leq(m, x)
  }

  lemma {:induction false} LeastExists<T(!new)>(leq: (T, T) -> bool, s: set<T>)
    requires TotalPreorder(leq) && s != {}
    ensures exists m :: IsLeast(leq, m, s)
    decreases s
  {
    var a :| a in s;
    if s == {a} {
      assert IsLeast(leq, a, s);
    } else {
      LeastExists(leq, s - {a});
      var m :| IsLeast(leq, m, s - {a});
      var least := if leq(m, a) then m else a;
      forall x | x in s ensures leq(least, x) {
        if x != a {
          assert x in s - {a};
          assert leq(m, a) || Linked(leq, a, m, x);
        }
      }
      assert IsLeast(leq, least, s);
    }
  }

  /** sorted(set): strictly increasing, and listing exactly the set. */
  function SortedSet<T(!new, ==)>(leq: (T, T) -> bool, s: set<T>): (r: seq<T>)
    requires TotalOrder(leq)
    ensures SortedBy(leq, r) && |r| == |s|
    ensures forall x :: x in r <==> x in s
    ensures Distinct(r)
    decreases s
  {
    if s == {} then []
    else
      LeastExists(leq, s);
      var m :| m in s && forall x :: x in s ==> leq(m, x);
      var rest := SortedSet(leq, s - {m});
      assert forall k :: 0 <= k < |rest| ==> rest[k] in rest;
      [m] + rest
  }

  function Elements<T(==)>(s: seq<T>): set<T> {
    set x | x in s
  }

  ghost predicate Distinct<T>(s: seq<T>) {
    forall i, j :: 0 <= i < j < |s| ==> s[i] != s[j]
  }

  lemma {:induction false} DistinctCardinality<T>(s: seq<T>)
    requires Distinct(s)
    ensures |set x | x in s| == |s|
  {
    if s == [] {
      assert (set x | x in s) == {};
    } else {
      var init, last := s[..|s| - 1], s[|s| - 1];
      DistinctCardinality(init);
      assert s == init + [last];
      assert last !in init;
      assert (set x | x in s) == (set x | x in init) + {last};
    }
  }

  lemma {:induction false} CardinalityTellsDistinct<T>(s: seq<T>)
    ensures |set x | x in s| <= |s|
    ensures |set x | x in s| == |s| <==> Distinct(s)
  {
    if s == [] {
      assert (set x | x in s) == {};
    } else {
      var init, last := s[..|s| - 1], s[|s| - 1];
      CardinalityTellsDistinct(init);
      assert s == init + [last];
      assert (set x | x in s) == (set x | x in init) + {last};
      if last in init {
        assert (set x | x in s) == (set x | x in init);
      }
    }
  }
}
