// Extraction planning: the galloping search for the largest slice that fits, the
// greedy split of one table, and the plans made from all source tables.

module ShardPlanner {
  import opened Common

  datatype PlanningError = NonPositiveLimit | RowTooLarge(row: nat)

  /** The byte limit and the encoded size of a slice, which is not modelled further. */
  datatype Limit<!Row> = Limit(maxInputBytes: int, size: seq<Row> -> nat) {
    predicate Fits(rows: seq<Row>) {
      size(rows) <= maxInputBytes
    }
  }

  /** Fitting is closed under non-empty contiguous sub-slices. */
  ghost predicate ClosedUnderSlices<Row>(limit: Limit<Row>, table: seq<Row>) {
    forall a, b, c, d :: 0 <= a <= c < d <= b <= |table| && limit.Fits(table[a..b]) ==> limit.Fits(table[c..d])
  }

  lemma ClosedInstance<Row>(limit: Limit<Row>, table: seq<Row>, a: nat, b: nat, c: nat, d: nat)
    requires ClosedUnderSlices(limit, table)
    requires a <= c < d <= b <= |table| && limit.Fits(table[a..b])
    ensures limit.Fits(table[c..d])
  {
  }

  function Flatten<Row>(shards: seq<seq<Row>>): seq<Row> {
    if shards == [] then [] else Flatten(shards[..|shards| - 1]) + shards[|shards| - 1]
  }

  ghost predicate FittingSplit<Row>(limit: Limit<Row>, table: seq<Row>, shards: seq<seq<Row>>) {
    && Flatten(shards) == table
    && forall i :: 0 <= i < |shards| ==> shards[i] != [] && limit.Fits(shards[i])
  }

  // ----- One shard: gallop, then bisect -----

  function Pow2(k: nat): (r: nat)
    ensures r >= 1
  {
    if k == 0 then 1 else 2 * Pow2(k - 1)
  }

  /** The integer part of the binary logarithm. */
  function Log2(n: nat): nat
    requires n >= 1
  {
    if n == 1 then 0 else 1 + Log2(n / 2)
  }

  lemma {:induction false} Log2Bound(n: nat, k: nat)
    requires n >= Pow2(k)
    ensures Log2(n) >= k
  {
    if k != 0 {
      Log2Bound(n / 2, k - 1);
    }
  }

  /** best rows from start fit, and taking one more is impossible or does not fit. */
  ghost predicate LocallyLargest<Row>(limit: Limit<Row>, table: seq<Row>, start: nat, best: nat)
    requires start + best <= |table|
  {
    && (best != 0 ==> limit.Fits(table[start..start + best]))
    && (start + best < |table| ==> !limit.Fits(table[start..start + best + 1]))
  }

  /** No monotonicity is assumed; the probes made are counted. */
  method LargestSlice<Row>(limit: Limit<Row>, table: seq<Row>, start: nat) returns (best: nat, ghost probes: nat)
    requires start < |table|
    ensures start + best <= |table| && LocallyLargest(limit, table, start, best)
    ensures best == 0 ==> probes == 1
    ensures best != 0 ==> probes <= 2 * Log2(best) + 2
  {
    var remaining := |table| - start;
    var low, high := 0, 1;
    probes := 0;
    ghost var k: nat := 0;
    while high <= remaining && limit.Fits(table[start..start + high])
      invariant high == Pow2(k) && probes == k && low <= remaining
      invariant low == if k == 0 then 0 else Pow2(k - 1)
      invariant low != 0 ==> limit.Fits(table[start..start + low])
      decreases remaining + 1 - low
    {
      probes := probes + 1;
      low := high;
      high := high * 2;
      k := k + 1;
    }
    if high <= remaining {
      probes := probes + 1;
    }
    high := if high <= remaining + 1 then high else remaining + 1;
    ghost var width: nat := if k == 0 then 0 else k - 1;
    while low + 1 < high
      invariant 0 <= low < high <= remaining + 1
      invariant low != 0 ==> limit.Fits(table[start..start + low])
      invariant high <= remaining ==> !limit.Fits(table[start..start + high])
      invariant k == 0 ==> low == 0 && high == 1 && probes == 1
      invariant k != 0 ==> low >= Pow2(k - 1) && high - low <= Pow2(width) && probes + width <= 2 * k
    {
      var middle := (low + high) / 2;
      probes := probes + 1;
      if limit.Fits(table[start..start + middle]) {
        low := middle;
      } else {
        high := middle;
      }
      width := width - 1;
    }
    best := low;
    if k != 0 {
      Log2Bound(best, k - 1);
    }
  }

  // ----- The greedy split -----

  /** Each shard starts where the previous one ended and is locally largest. */
  ghost predicate Greedy<Row>(limit: Limit<Row>, table: seq<Row>, end: nat, shards: seq<seq<Row>>)
    decreases |shards|
  {
    if shards == [] then end == 0
    else
      var last := shards[|shards| - 1];
      && last != [] && |last| <= end <= |table|
      && last == table[end - |last|..end]
      && LocallyLargest(limit, table, end - |last|, |last|)
      && Greedy(limit, table, end - |last|, shards[..|shards| - 1])
  }

  lemma {:induction false} GreedyFlattens<Row>(limit: Limit<Row>, table: seq<Row>, end: nat, shards: seq<seq<Row>>)
    requires Greedy(limit, table, end, shards) && end <= |table|
    ensures Flatten(shards) == table[..end]
    ensures forall i :: 0 <= i < |shards| ==> shards[i] != [] && limit.Fits(shards[i])
  {
    if shards != [] {
      var last := shards[|shards| - 1];
      GreedyFlattens(limit, table, end - |last|, shards[..|shards| - 1]);
      assert table[..end] == table[..end - |last|] + last;
    }
  }

  /** The rows taken by the first shards of a split. */
  ghost function Taken<Row>(shards: seq<seq<Row>>, k: nat): nat
    requires k <= |shards|
  {
    if k == 0 then 0 else Taken(shards, k - 1) + |shards[k - 1]|
  }

  lemma {:induction false} TakenIsPrefix<Row>(shards: seq<seq<Row>>, k: nat)
    requires k <= |shards|
    ensures Taken(shards, k) == |Flatten(shards[..k])|
  {
    if k != 0 {
      TakenIsPrefix(shards, k - 1);
      assert shards[..k][..k - 1] == shards[..k - 1];
    }
  }

  lemma {:induction false} FlattenPrefix<Row>(shards: seq<seq<Row>>, k: nat)
    requires k <= |shards|
    ensures Flatten(shards[..k]) <= Flatten(shards)
    decreases |shards| - k
  {
    if k == |shards| {
      assert shards[..k] == shards;
    } else {
      FlattenPrefix(shards, k + 1);
      assert shards[..k + 1][..k] == shards[..k];
    }
  }

  lemma FlattenNext<Row>(shards: seq<seq<Row>>, k: nat)
    requires k < |shards|
    ensures Flatten(shards[..k + 1]) == Flatten(shards[..k]) + shards[k]
  {
    assert shards[..k + 1][..k] == shards[..k];
  }

  lemma ShardIsSlice<Row>(shards: seq<seq<Row>>, table: seq<Row>, k: nat)
    requires Flatten(shards) == table && k < |shards|
    ensures Taken(shards, k) + |shards[k]| <= |table|
    ensures shards[k] == table[Taken(shards, k)..Taken(shards, k) + |shards[k]|]
  {
    hide Flatten, Taken;
    TakenIsPrefix(shards, k);
    FlattenPrefix(shards, k + 1);
    FlattenNext(shards, k);
    var before := Flatten(shards[..k]);
    assert before + shards[k] <= table;
    assert table[|before|..|before| + |shards[k]|] == shards[k];
  }

  lemma {:induction false} GreedyAt<Row>(limit: Limit<Row>, table: seq<Row>, end: nat, shards: seq<seq<Row>>, k: nat)
    requires Greedy(limit, table, end, shards) && end <= |table| && k < |shards|
    ensures Taken(shards, |shards|) == end
    ensures Taken(shards, k) + |shards[k]| <= |table|
    ensures LocallyLargest(limit, table, Taken(shards, k), |shards[k]|)
    decreases |shards|
  {
    var init, last := shards[..|shards| - 1], shards[|shards| - 1];
    GreedyTakes(limit, table, end, shards);
    GreedyTakes(limit, table, end - |last|, init);
    TakenOfPrefix(shards, |init|, |init|);
    if k < |init| {
      GreedyAt(limit, table, end - |last|, init, k);
      TakenOfPrefix(shards, |init|, k);
    }
  }

  lemma GreedyTakes<Row>(limit: Limit<Row>, table: seq<Row>, end: nat, shards: seq<seq<Row>>)
    requires Greedy(limit, table, end, shards) && end <= |table|
    ensures Taken(shards, |shards|) == end
  {
    GreedyFlattens(limit, table, end, shards);
    TakenIsPrefix(shards, |shards|);
    assert shards[..|shards|] == shards;
  }

  lemma {:induction false} TakenOfPrefix<Row>(shards: seq<seq<Row>>, m: nat, k: nat)
    requires k <= m <= |shards|
    ensures Taken(shards[..m], k) == Taken(shards, k)
  {
    if k != 0 {
      TakenOfPrefix(shards, m, k - 1);
    }
  }

  /** Greedy stays at least as far along as any other fitting split. */
  lemma {:induction false} GreedyStaysAhead<Row>(limit: Limit<Row>, table: seq<Row>, shards: seq<seq<Row>>, other: seq<seq<Row>>, k: nat)
    requires ClosedUnderSlices(limit, table) && Greedy(limit, table, |table|, shards)
    requires FittingSplit(limit, table, other)
    requires k <= |shards| && k <= |other|
    ensures Taken(other, k) <= Taken(shards, k)
  {
    if k != 0 {
      GreedyStaysAhead(limit, table, shards, other, k - 1);
      GreedyAt(limit, table, |table|, shards, k - 1);
      ShardIsSlice(other, table, k - 1);
      var a, g := Taken(other, k - 1), Taken(shards, k - 1);
      var b, h := Taken(other, k), Taken(shards, k);
      var oneMore: nat := h + 1;
      if h < b {
        ClosedInstance(limit, table, a, b, g, oneMore);
      }
    }
  }

  /** No contiguous split into fitting slices uses fewer shards. */
  lemma GreedyIsOptimal<Row>(limit: Limit<Row>, table: seq<Row>, shards: seq<seq<Row>>, other: seq<seq<Row>>)
    requires ClosedUnderSlices(limit, table) && Greedy(limit, table, |table|, shards)
    requires FittingSplit(limit, table, other)
    ensures |shards| <= |other|
  {
    if |other| < |shards| {
      GreedyStaysAhead(limit, table, shards, other, |other|);
      GreedyIsLonger(limit, table, shards, other);
    }
  }

  lemma GreedyIsLonger<Row>(limit: Limit<Row>, table: seq<Row>, shards: seq<seq<Row>>, other: seq<seq<Row>>)
    requires Greedy(limit, table, |table|, shards) && Flatten(other) == table && |other| < |shards|
    ensures Taken(shards, |other|) < Taken(other, |other|)
  {
    TakenIsPrefix(other, |other|);
    assert other[..|other|] == other;
    GreedyAt(limit, table, |table|, shards, |other|);
    GreedyFlattens(limit, table, |table|, shards);
    assert shards[|other|] != [];
  }

  /** Each shard was found with few probes. */
  ghost predicate FewProbes<Row>(shards: seq<seq<Row>>, probes: seq<nat>) {
    |probes| == |shards| && forall i :: 0 <= i < |probes| ==> |shards[i]| >= 1 && probes[i] <= 2 * Log2(|shards[i]|) + 2
  }

  lemma OneMoreFound<Row>(shards: seq<seq<Row>>, probes: seq<nat>, shard: seq<Row>, count: nat)
    requires FewProbes(shards, probes) && |shard| >= 1 && count <= 2 * Log2(|shard|) + 2
    ensures FewProbes(shards + [shard], probes + [count])
  {
    hide Log2;
  }

  /** The loop over one table, once the limit is known to be positive. */
  method SplitRows<Row>(limit: Limit<Row>, table: seq<Row>)
    returns (r: Result<seq<seq<Row>>, PlanningError>, ghost probes: seq<nat>)
    ensures r.Ok? ==> Greedy(limit, table, |table|, r.value)
    ensures r.Ok? ==> FewProbes(r.value, probes)
    ensures r.Err? ==> r.error.RowTooLarge? && r.error.row < |table| && !limit.Fits([table[r.error.row]])
  {
    probes := [];
    var shards: seq<seq<Row>> := [];
    var start := 0;
    assert Greedy(limit, table, 0, []) && FewProbes<Row>([], []);
    hide *;
    while start < |table|
      invariant start <= |table| && Greedy(limit, table, start, shards)
      invariant FewProbes(shards, probes)
    {
      var best; ghost var count;
      best, count := LargestSlice(limit, table, start);
      if best == 0 {
        UnfitRow(limit, table, start);
        return Err(RowTooLarge(start)), probes;
      }
      var shard := table[start..start + best];
      GreedyExtends(limit, table, start, shards, best);
      OneMoreFound(shards, probes, shard, count);
      shards := shards + [shard];
      probes := probes + [count];
      start := start + best;
    }
    r := Ok(shards);
  }

  lemma UnfitRow<Row>(limit: Limit<Row>, table: seq<Row>, start: nat)
    requires start < |table| && LocallyLargest(limit, table, start, 0)
    ensures !limit.Fits([table[start]])
  {
    assert table[start..start + 1] == [table[start]];
  }

  lemma GreedyExtends<Row>(limit: Limit<Row>, table: seq<Row>, start: nat, shards: seq<seq<Row>>, best: nat)
    requires best != 0 && start + best <= |table|
    requires Greedy(limit, table, start, shards) && LocallyLargest(limit, table, start, best)
    ensures Greedy(limit, table, start + best, shards + [table[start..start + best]])
  {
    var longer := shards + [table[start..start + best]];
    assert longer[..|longer| - 1] == shards;
  }

  /** What makes a table impossible to plan. */
  ghost predicate Unplannable<Row>(limit: Limit<Row>, table: seq<Row>) {
    limit.maxInputBytes <= 0 || exists k :: 0 <= k < |table| && limit.size([table[k]]) > limit.maxInputBytes
  }

  method SplitTable<Row>(limit: Limit<Row>, table: seq<Row>)
    returns (r: Result<seq<seq<Row>>, PlanningError>, ghost probes: seq<nat>)
    ensures r == Err(NonPositiveLimit) <==> limit.maxInputBytes <= 0
    ensures r.Ok? ==> FittingSplit(limit, table, r.value) && Greedy(limit, table, |table|, r.value)
    ensures r.Ok? ==> FewProbes(r.value, probes)
    ensures r.Err? && r.error.RowTooLarge? ==>
              r.error.row < |table| && limit.size([table[r.error.row]]) > limit.maxInputBytes > 0
    ensures r.Err? ==> Unplannable(limit, table)
    ensures ClosedUnderSlices(limit, table) ==> (r.Err? <==> Unplannable(limit, table))
  {
    if limit.maxInputBytes <= 0 {
      return Err(NonPositiveLimit), [];
    }
    r, probes := SplitRows(limit, table);
    if r.Ok? {
      GreedyFlattens(limit, table, |table|, r.value);
      assert table[..|table|] == table;
      if ClosedUnderSlices(limit, table) {
        SplitMeansRowsFit(limit, table, r.value);
      }
    }
  }

  lemma SplitMeansRowsFit<Row>(limit: Limit<Row>, table: seq<Row>, shards: seq<seq<Row>>)
    requires ClosedUnderSlices(limit, table) && FittingSplit(limit, table, shards)
    ensures forall i :: 0 <= i < |table| ==> limit.Fits([table[i]])
  {
    forall i | 0 <= i < |table| ensures limit.Fits([table[i]]) {
      var k := HolderOf(shards, table, i);
      ShardIsSlice(shards, table, k);
      ClosedInstance(limit, table, Taken(shards, k), Taken(shards, k) + |shards[k]|, i, i + 1);
      assert table[i..i + 1] == [table[i]];
    }
  }

  lemma HolderOf<Row>(shards: seq<seq<Row>>, table: seq<Row>, i: nat) returns (k: nat)
    requires Flatten(shards) == table && i < |table|
    ensures k < |shards| && Taken(shards, k) <= i < Taken(shards, k) + |shards[k]|
  {
    TakenIsPrefix(shards, |shards|);
    assert shards[..|shards|] == shards;
    k := |shards| - 1;
    while Taken(shards, k) > i
      invariant k < |shards| && i < Taken(shards, k) + |shards[k]|
      decreases k
    {
      k := k - 1;
    }
  }

  // ----- Plans for all source tables -----

  datatype Plan<Row> = Plan(index: nat, rows: seq<Row>)

  function PlannedRows<Row>(plans: seq<Plan<Row>>): seq<Row> {
    if plans == [] then [] else PlannedRows(plans[..|plans| - 1]) + plans[|plans| - 1].rows
  }

  ghost predicate Indexed<Row>(plans: seq<Plan<Row>>) {
    forall i :: 0 <= i < |plans| ==> plans[i].index == i
  }

  lemma PlannedNext<Row>(plans: seq<Plan<Row>>, p: Plan<Row>)
    ensures PlannedRows(plans + [p]) == PlannedRows(plans) + p.rows
  {
    assert (plans + [p])[..|plans|] == plans;
  }

  method AppendPlans<Row>(plans0: seq<Plan<Row>>, shards: seq<seq<Row>>) returns (plans: seq<Plan<Row>>)
    requires Indexed(plans0)
    ensures Indexed(plans) && |plans| == |plans0| + |shards| && plans0 <= plans
    ensures forall i :: 0 <= i < |shards| ==> plans[|plans0| + i].rows == shards[i]
    ensures PlannedRows(plans) == PlannedRows(plans0) + Flatten(shards)
  {
    plans := plans0;
    assert Flatten(shards[..0]) == [];
    hide Flatten, PlannedRows;
    for i := 0 to |shards|
      invariant Indexed(plans) && |plans| == |plans0| + i && plans0 <= plans
      invariant forall k :: 0 <= k < i ==> plans[|plans0| + k].rows == shards[k]
      invariant PlannedRows(plans) == PlannedRows(plans0) + Flatten(shards[..i])
    {
      PlannedNext(plans, Plan(|plans|, shards[i]));
      FlattenNext(shards, i);
      plans := plans + [Plan(|plans|, shards[i])];
    }
    assert shards[..|shards|] == shards;
  }

  /** The plans hold the rows of every source table in order, indexed from 0; an empty source still gets one
      plan. Planning fails only on an impossible table, and on every one when fitting is closed under sub-slices. */
  method PlanShards<Row>(limit: Limit<Row>, tables: seq<seq<Row>>) returns (r: Result<seq<Plan<Row>>, PlanningError>)
    ensures r.Ok? ==> r.value != [] && Indexed(r.value) && PlannedRows(r.value) == Flatten(tables)
    ensures r.Ok? ==> forall i :: 0 <= i < |r.value| ==>
              if Flatten(tables) == [] then |r.value| == 1
              else r.value[i].rows != [] && limit.size(r.value[i].rows) <= limit.maxInputBytes
    ensures r.Err? ==> exists i :: 0 <= i < |tables| && Unplannable(limit, tables[i])
    ensures r == Err(NonPositiveLimit) <==> tables != [] && limit.maxInputBytes <= 0
    ensures (forall i :: 0 <= i < |tables| ==> ClosedUnderSlices(limit, tables[i])) ==>
              (r.Err? <==> exists i :: 0 <= i < |tables| && Unplannable(limit, tables[i]))
  {
    var plans: seq<Plan<Row>> := [];
    assert PlansOf(limit, tables[..0], plans);
    hide PlansOf, ClosedUnderSlices, Unplannable, Greedy, FewProbes;
    for i := 0 to |tables|
      invariant PlansOf(limit, tables[..i], plans)
      invariant i > 0 ==> limit.maxInputBytes > 0
      invariant forall k :: 0 <= k < i && ClosedUnderSlices(limit, tables[k]) ==> !Unplannable(limit, tables[k])
    {
      var split; ghost var probes;
      split, probes := SplitTable(limit, tables[i]);
      if split.Err? {
        return Err(split.error);
      }
      plans := AppendTable(limit, tables, i, plans, split.value);
    }
    assert tables[..|tables|] == tables;
    WholePlans(limit, tables, plans);
    if plans == [] {
      plans := [Plan(0, [])];
      assert plans[..0] == [];
    }
    r := Ok(plans);
  }

  /** The plans made of the tables read so far. */
  ghost predicate PlansOf<Row>(limit: Limit<Row>, tables: seq<seq<Row>>, plans: seq<Plan<Row>>) {
    && Indexed(plans) && PlannedRows(plans) == Flatten(tables)
    && forall k :: 0 <= k < |plans| ==> plans[k].rows != [] && limit.Fits(plans[k].rows)
  }

  method AppendTable<Row>(limit: Limit<Row>, ghost tables: seq<seq<Row>>, ghost i: nat, plans0: seq<Plan<Row>>, shards: seq<seq<Row>>)
    returns (plans: seq<Plan<Row>>)
    requires i < |tables| && PlansOf(limit, tables[..i], plans0) && FittingSplit(limit, tables[i], shards)
    ensures PlansOf(limit, tables[..i + 1], plans)
  {
    hide Flatten, PlannedRows;
    plans := AppendPlans(plans0, shards);
    assert forall k :: |plans0| <= k < |plans| ==> plans[k].rows == shards[k - |plans0|];
    FlattenNext(tables, i);
  }

  lemma WholePlans<Row>(limit: Limit<Row>, tables: seq<seq<Row>>, plans: seq<Plan<Row>>)
    requires PlansOf(limit, tables, plans)
    ensures Indexed(plans) && PlannedRows(plans) == Flatten(tables) && (Flatten(tables) == [] <==> plans == [])
    ensures forall k :: 0 <= k < |plans| ==> plans[k].rows != [] && limit.Fits(plans[k].rows)
  {
    hide Flatten;
    if plans != [] {
      assert plans[|plans| - 1].rows != [];
    }
  }
}
