// The extraction job and its shard rows: folding offload statuses, halving refused
// shards, and what every serial run of those steps preserves.

module ShardLedger {
  import opened Common
  import opened ShardPlanner

  datatype OffloadStatus = OffloadQueued | OffloadRunning | OffloadSucceeded | OffloadFailed | OffloadCanceled

  /** The orchestration job that executes one shard. */
  datatype Offload = Offload(status: OffloadStatus, outputRows: Option<nat>, error: string)

  datatype Status = Queued | Running | Succeeded | Failed | Canceled | Superseded

  /** A shard row. rows is the content of its immutable input artifact; origin is the planned shard
      it descends from, recorded here for the statements below and not stored by the service. */
  datatype Shard<Row> = Shard(
    index: nat, rows: seq<Row>, status: Status, outputRows: Option<nat>, error: string, offload: Option<Offload>, origin: nat)

  datatype JobStatus = JobQueued | JobRunning | JobPartial | JobSucceeded | JobFailed | JobCanceled

  datatype Job<Row> = Job(status: JobStatus, shardCount: nat, rowsTotal: nat, shards: seq<Shard<Row>>)

  const OVERSIZE := "output_exceeds_max_bytes"
  const ONE_ROW := "a one-row shard cannot be split further"

  /** How storage and the database treat one replan. */
  datatype Outcome =
    | Proceed
    | Refuse(reason: string)     // the artifact is rejected on reading or writing
    | Break                      // storage fails; nothing is created and the call ends
    | BreakAfter(offloads: nat)  // the replacements are committed, then the call ends

  /** The circumstances of one call: what happens at each shard, and whether replacements can be dispatched at the end. */
  datatype Call = Call(outcomes: nat -> Outcome, dispatches: bool)

  predicate OccursAt(text: string, part: string, i: nat) {
    i + |part| <= |text| && text[i..i + |part|] == part
  }

  predicate Contains(text: string, part: string) {
    exists i: nat :: i <= |text| && OccursAt(text, part, i)
  }

  function Mapped(s: OffloadStatus): Status {
    match s
    case OffloadQueued => Queued
    case OffloadRunning => Running
    case OffloadSucceeded => Succeeded
    case OffloadFailed => Failed
    case OffloadCanceled => Canceled
  }

  function Sync<Row>(s: Shard<Row>): Shard<Row> {
    if s.offload.None? then s
    else
      var o := s.offload.value;
      s.(status := Mapped(o.status), outputRows := o.outputRows, error := o.error)
  }

  function MaxIndex<Row>(shards: seq<Shard<Row>>): nat {
    if shards == [] then 0
    else
      var m, last := MaxIndex(shards[..|shards| - 1]), shards[|shards| - 1].index;
      if m < last then last else m
  }

  function Replacement<Row>(s: Shard<Row>, index: nat, rows: seq<Row>, offloaded: bool): Shard<Row> {
    Shard(index, rows, Queued, None, "", if offloaded then Some(Offload(OffloadQueued, None, "")) else None, s.origin)
  }

  /** Supersede shard i by its two halves; offloads says how many orchestration jobs were created. */
  function Halve<Row>(shards: seq<Shard<Row>>, i: nat, offloads: nat): seq<Shard<Row>>
    requires i < |shards|
  {
    var s, next := shards[i], MaxIndex(shards) + 1;
    var half := |s.rows| / 2;
    shards[i := s.(status := Superseded)]
    + [Replacement(s, next, s.rows[..half], offloads > 0), Replacement(s, next + 1, s.rows[half..], offloads > 1)]
  }

  function NoteRefusal<Row>(s: Shard<Row>, reason: string): Shard<Row> {
    var error := s.error + "; replan refused: " + reason;
    s.(error := error, offload := if s.offload.Some? then Some(s.offload.value.(error := error)) else None)
  }

  predicate Oversize<Row>(s: Shard<Row>) {
    s.status.Failed? && Contains(s.error, OVERSIZE)
  }

  function Effective<Row>(s: Shard<Row>, outcome: Outcome): Outcome {
    if |s.rows| < 2 && (outcome.Proceed? || outcome.BreakAfter?) then Refuse(ONE_ROW) else outcome
  }

  /** One pass over shard i; the flag says that the call ended there. */
  function Visit<Row>(shards: seq<Shard<Row>>, i: nat, outcome: Outcome): (seq<Shard<Row>>, bool)
    requires i < |shards|
  {
    if shards[i].status.Superseded? then (shards, false)
    else
      var s := Sync(shards[i]);
      var synced := shards[i := s];
      if !Oversize(s) then (synced, false)
      else
        match Effective(s, outcome)
        case Proceed => (Halve(synced, i, 2), false)
        case Refuse(reason) => (synced[i := NoteRefusal(s, reason)], false)
        case Break => (synced, true)
        case BreakAfter(offloads) => (Halve(synced, i, offloads), true)
  }

  lemma VisitGrows<Row>(shards: seq<Shard<Row>>, i: nat, outcome: Outcome)
    requires i < |shards|
    ensures |Visit(shards, i, outcome).0| >= |shards|
  {
  }

  /** The loop over the shards present when the call began. */
  function VisitFrom<Row>(shards: seq<Shard<Row>>, i: nat, n: nat, outcomes: nat -> Outcome): (seq<Shard<Row>>, bool)
    requires i <= n <= |shards|
    decreases n - i
  {
    if i == n then (shards, false)
    else
      var (next, ended) := Visit(shards, i, outcomes(i));
      VisitGrows(shards, i, outcomes(i));
      if ended then (next, true) else VisitFrom(next, i + 1, n, outcomes)
  }

  /** The whole pass; a replacement that cannot be dispatched ends the call after it. */
  function VisitAll<Row>(shards: seq<Shard<Row>>, call: Call): (seq<Shard<Row>>, bool) {
    var (visited, ended) := VisitFrom(shards, 0, |shards|, call.outcomes);
    (visited, ended || (!call.dispatches && |visited| > |shards|))
  }

  function SyncActive<Row>(shards: seq<Shard<Row>>): (r: seq<Shard<Row>>)
    ensures |r| == |shards|
  {
    seq(|shards|, i requires 0 <= i < |shards| => if shards[i].status.Superseded? then shards[i] else Sync(shards[i]))
  }

  function ActiveCount<Row>(shards: seq<Shard<Row>>): nat {
    if shards == [] then 0
    else ActiveCount(shards[..|shards| - 1]) + if shards[|shards| - 1].status.Superseded? then 0 else 1
  }

  function RowsTotal<Row>(shards: seq<Shard<Row>>): nat {
    if shards == [] then 0
    else
      var last := shards[|shards| - 1];
      RowsTotal(shards[..|shards| - 1]) + if last.status.Superseded? || last.outputRows.None? then 0 else last.outputRows.value
  }

  function ActiveStatuses<Row>(shards: seq<Shard<Row>>): set<Status> {
    set i | 0 <= i < |shards| && !shards[i].status.Superseded? :: shards[i].status
  }

  function FoldStatus(statuses: set<Status>): JobStatus {
    if statuses == {Succeeded} then JobSucceeded
    else if Running in statuses || Queued in statuses then JobRunning
    else if statuses == {Canceled} then JobCanceled
    else if Succeeded in statuses then JobPartial
    else JobFailed
  }

  function Reconciled<Row>(job: Job<Row>, call: Call): Job<Row> {
    if job.status.JobCanceled? then job
    else
      var (visited, ended) := VisitAll(job.shards, call);
      if ended then job.(shards := visited)
      else
        var shards := SyncActive(visited);
        Job(FoldStatus(ActiveStatuses(shards)), ActiveCount(shards), RowsTotal(shards), shards)
  }

  /** A call that was neither skipped nor cut short. */
  predicate Completes<Row>(job: Job<Row>, call: Call) {
    !job.status.JobCanceled? && !VisitAll(job.shards, call).1
  }

  /** Every index in use is at most the greatest, so the next two are free. */
  lemma {:induction false} IndicesBelow<Row>(shards: seq<Shard<Row>>)
    ensures forall k :: 0 <= k < |shards| ==> shards[k].index <= MaxIndex(shards)
  {
    if shards != [] {
      IndicesBelow(shards[..|shards| - 1]);
    }
  }

  // ----- The stored job -----

  class ExtractionJob<Row> {
    var status: JobStatus
    var shardCount: nat
    var rowsTotal: nat
    var shards: seq<Shard<Row>>

    function State(): Job<Row>
      reads this
    {
      Job(status, shardCount, rowsTotal, shards)
    }

    method SyncShard(i: nat)
      requires i < |shards|
      modifies this`shards
      ensures shards == old(shards)[i := Sync(old(shards)[i])]
      ensures shards[i].rows == old(shards)[i].rows && shards[i].index == old(shards)[i].index
      ensures shards[i].offload.None? ==> shards == old(shards)
      ensures shards[i].offload.Some? ==> (shards[i].status.Succeeded? <==> shards[i].offload.value.status.OffloadSucceeded?)
    {
      var s := shards[i];
      if s.offload.Some? {
        var o := s.offload.value;
        if s.status != Mapped(o.status) {
          s := s.(status := Mapped(o.status));
        }
        s := s.(outputRows := o.outputRows, error := o.error);
      }
      shards := shards[i := s];
    }

    method ReplanShard(i: nat, offloads: nat)
      requires i < |shards| && |shards[i].rows| >= 2
      modifies this`shards
      ensures shards == Halve(old(shards), i, offloads)
      ensures |shards| == |old(shards)| + 2 && shards[i].status.Superseded?
      ensures forall k :: 0 <= k < |old(shards)| && k != i ==> shards[k] == old(shards)[k]
      ensures var a, b := shards[|shards| - 2], shards[|shards| - 1];
              && a.rows + b.rows == old(shards)[i].rows && |a.rows| == |old(shards)[i].rows| / 2 && a.rows != []
              && a.status.Queued? && b.status.Queued? && b.index == a.index + 1
              && forall k :: 0 <= k < |old(shards)| ==> old(shards)[k].index < a.index
    {
      IndicesBelow(shards);
      var s := shards[i];
      var splitAt := |s.rows| / 2;
      var next := MaxIndex(shards) + 1;
      var first := Replacement(s, next, s.rows[..splitAt], offloads > 0);
      var second := Replacement(s, next + 1, s.rows[splitAt..], offloads > 1);
      shards := shards[i := s.(status := Superseded)] + [first, second];
    }

    method VisitShard(i: nat, outcome: Outcome) returns (ended: bool)
      requires i < |shards|
      modifies this`shards
      ensures (shards, ended) == Visit(old(shards), i, outcome)
    {
      if shards[i].status.Superseded? {
        return false;
      }
      SyncShard(i);
      if !Oversize(shards[i]) {
        return false;
      }
      match Effective(shards[i], outcome) {
        case Proceed =>
          ReplanShard(i, 2);
          ended := false;
        case Refuse(reason) =>
          shards := shards[i := NoteRefusal(shards[i], reason)];
          ended := false;
        case Break =>
          ended := true;
        case BreakAfter(offloads) =>
          ReplanShard(i, offloads);
          ended := true;
      }
    }

    /** One reconciliation, as one atomic step. */
    method Reconcile(call: Call)
      modifies this
      ensures State() == Reconciled(old(State()), call)
    {
      if status.JobCanceled? {
        return;
      }
      var n := |shards|;
      for i := 0 to n
        invariant status == old(status) && shardCount == old(shardCount) && rowsTotal == old(rowsTotal)
        invariant n <= |shards|
        invariant VisitFrom(shards, i, n, call.outcomes) == VisitFrom(old(shards), 0, n, call.outcomes)
      {
        VisitGrows(shards, i, call.outcomes(i));
        var ended := VisitShard(i, call.outcomes(i));
        if ended {
          return;
        }
      }
      if !call.dispatches && |shards| > n {
        return;
      }
      var active := SyncAll();
      status := FoldStatus(ActiveStatuses(shards));
      shardCount := active;
      rowsTotal := RowsTotal(shards);
    }

    method SyncAll() returns (active: nat)
      modifies this`shards
      ensures shards == SyncActive(old(shards)) && active == ActiveCount(shards)
    {
      active := 0;
      var n := |shards|;
      for i := 0 to n
        invariant |shards| == n == |old(shards)| && active == ActiveCount(shards[..i])
        invariant forall k :: 0 <= k < i ==> shards[k] == SyncActive(old(shards))[k]
        invariant forall k :: i <= k < n ==> shards[k] == old(shards)[k]
      {
        ghost var before := shards[..i];
        if !shards[i].status.Superseded? {
          SyncShard(i);
          active := active + 1;
        }
        assert shards[..i + 1][..i] == shards[..i] == before;
      }
      assert shards[..n] == shards;
    }
  }

  // ----- Conservation -----

  /** Quantities summed over the shards descending from planned shard o. */
  datatype Measure<Row> =
    | Held(o: nat, row: Row)       // occurrences of a row in active shards
    | Delivered(o: nat, row: Row)  // occurrences of a row in succeeded shards
    | Descendants(o: nat)          // shards, superseded ones included
    | Budget(o: nat)               // shards, plus the most their rows could still give rise to

  /** 2n - 1 for n rows, and one shard for none. */
  function MostShards(n: nat): nat {
    if n == 0 then 1 else 2 * n - 1
  }

  ghost function Amount<Row>(m: Measure<Row>, s: Shard<Row>): nat {
    if s.origin != m.o then 0
    else match m
      case Held(_, row) => if s.status.Superseded? then 0 else multiset(s.rows)[row]
      case Delivered(_, row) => if s.status.Succeeded? then multiset(s.rows)[row] else 0
      case Descendants(_) => 1
      case Budget(_) => if s.status.Superseded? then 1 else MostShards(|s.rows|)
  }

  ghost function Total<Row>(shards: seq<Shard<Row>>, m: Measure<Row>): nat {
    if shards == [] then 0 else Total(shards[..|shards| - 1], m) + Amount(m, shards[|shards| - 1])
  }

  /** What every serial run keeps, relative to the rows planned at the start. */
  ghost predicate Conserves<Row(!new)>(shards: seq<Shard<Row>>, planned: seq<seq<Row>>) {
    && (forall i :: 0 <= i < |shards| ==> shards[i].index == i && shards[i].origin < |planned|)
    && (forall o, row :: 0 <= o < |planned| ==> Total(shards, Held(o, row)) == multiset(planned[o])[row])
    && (forall o :: 0 <= o < |planned| ==> Total(shards, Budget(o)) == MostShards(|planned[o]|))
  }

  /** The measures that conservation fixes. */
  predicate Fixed<Row>(m: Measure<Row>) {
    m.Held? || m.Budget?
  }

  lemma {:induction false} TotalUpdate<Row>(shards: seq<Shard<Row>>, i: nat, s: Shard<Row>, m: Measure<Row>)
    requires i < |shards|
    ensures Total(shards[i := s], m) + Amount(m, shards[i]) == Total(shards, m) + Amount(m, s)
  {
    var init := shards[..|shards| - 1];
    if i == |init| {
      assert shards[i := s][..|init|] == init;
    } else {
      TotalUpdate(init, i, s, m);
      assert shards[i := s][..|init|] == init[i := s];
    }
  }

  lemma TotalAppend<Row>(shards: seq<Shard<Row>>, s: Shard<Row>, m: Measure<Row>)
    ensures Total(shards + [s], m) == Total(shards, m) + Amount(m, s)
  {
    assert (shards + [s])[..|shards|] == shards;
  }

  lemma {:induction false} TotalsAgree<Row>(a: seq<Shard<Row>>, m: Measure<Row>, b: seq<Shard<Row>>, n: Measure<Row>)
    requires |a| == |b| && forall i :: 0 <= i < |a| ==> Amount(m, a[i]) == Amount(n, b[i])
    ensures Total(a, m) == Total(b, n)
  {
    if a != [] {
      TotalsAgree(a[..|a| - 1], m, b[..|b| - 1], n);
    }
  }

  lemma {:induction false} TotalsOrdered<Row>(a: seq<Shard<Row>>, m: Measure<Row>, n: Measure<Row>)
    requires forall s: Shard<Row> :: Amount(m, s) <= Amount(n, s)
    ensures Total(a, m) <= Total(a, n)
  {
    if a != [] {
      TotalsOrdered(a[..|a| - 1], m, n);
    }
  }

  /** Equal totals of the fixed measures carry conservation over. */
  lemma SameTotalsConserve<Row(!new)>(before: seq<Shard<Row>>, after: seq<Shard<Row>>, planned: seq<seq<Row>>)
    requires Conserves(before, planned)
    requires forall i :: 0 <= i < |after| ==> after[i].index == i && after[i].origin < |planned|
    requires forall m :: Fixed(m) ==> Total(after, m) == Total(before, m)
    ensures Conserves(after, planned)
  {
    forall o, row | 0 <= o < |planned| ensures Total(after, Held(o, row)) == multiset(planned[o])[row] {
      assert Fixed(Held(o, row));
    }
    forall o | 0 <= o < |planned| ensures Total(after, Budget(o)) == MostShards(|planned[o]|) {
      assert Fixed<Row>(Budget(o));
    }
  }

  /** Replacing a shard by one with the same rows, origin and activity changes no fixed total. */
  lemma UpdateConserves<Row(!new)>(shards: seq<Shard<Row>>, planned: seq<seq<Row>>, i: nat, s: Shard<Row>)
    requires Conserves(shards, planned) && i < |shards|
    requires s.index == shards[i].index && s.rows == shards[i].rows && s.origin == shards[i].origin
    requires s.status.Superseded? == shards[i].status.Superseded?
    ensures Conserves(shards[i := s], planned)
  {
    forall m: Measure<Row> | Fixed(m) ensures Total(shards[i := s], m) == Total(shards, m) {
      TotalUpdate(shards, i, s, m);
    }
    SameTotalsConserve(shards, shards[i := s], planned);
  }

  lemma {:induction false} MaxIndexIsLast<Row>(shards: seq<Shard<Row>>)
    requires shards != [] && forall i :: 0 <= i < |shards| ==> shards[i].index == i
    ensures MaxIndex(shards) == |shards| - 1
  {
    if |shards| > 1 {
      MaxIndexIsLast(shards[..|shards| - 1]);
    }
  }

  /** The two halves hold the refused shard's rows and no more budget than it had. */
  lemma HalvesCarry<Row>(s: Shard<Row>, a: Shard<Row>, b: Shard<Row>, m: Measure<Row>)
    requires Fixed(m) && !s.status.Superseded? && |s.rows| >= 2
    requires a.rows == s.rows[..|s.rows| / 2] && b.rows == s.rows[|s.rows| / 2..]
    requires a.origin == b.origin == s.origin && a.status.Queued? && b.status.Queued?
    ensures Amount(m, s.(status := Superseded)) + Amount(m, a) + Amount(m, b) == Amount(m, s)
  {
    assert s.rows == a.rows + b.rows;
  }

  lemma HalveTotals<Row>(shards: seq<Shard<Row>>, i: nat, offloads: nat, m: Measure<Row>)
    requires i < |shards| && !shards[i].status.Superseded? && |shards[i].rows| >= 2 && Fixed(m)
    ensures Total(Halve(shards, i, offloads), m) == Total(shards, m)
  {
    var s, next := shards[i], MaxIndex(shards) + 1;
    var half := |s.rows| / 2;
    var retired := shards[i := s.(status := Superseded)];
    var a := Replacement(s, next, s.rows[..half], offloads > 0);
    var b := Replacement(s, next + 1, s.rows[half..], offloads > 1);
    TotalUpdate(shards, i, s.(status := Superseded), m);
    TotalAppend(retired, a, m);
    TotalAppend(retired + [a], b, m);
    HalvesCarry(s, a, b, m);
    assert Halve(shards, i, offloads) == retired + [a] + [b];
  }

  lemma HalveConserves<Row(!new)>(shards: seq<Shard<Row>>, planned: seq<seq<Row>>, i: nat, offloads: nat)
    requires Conserves(shards, planned)
    requires i < |shards| && !shards[i].status.Superseded? && |shards[i].rows| >= 2
    ensures Conserves(Halve(shards, i, offloads), planned)
  {
    MaxIndexIsLast(shards);
    forall m: Measure<Row> | Fixed(m) ensures Total(Halve(shards, i, offloads), m) == Total(shards, m) {
      HalveTotals(shards, i, offloads, m);
    }
    SameTotalsConserve(shards, Halve(shards, i, offloads), planned);
  }

  lemma VisitConserves<Row(!new)>(shards: seq<Shard<Row>>, planned: seq<seq<Row>>, i: nat, outcome: Outcome)
    requires Conserves(shards, planned) && i < |shards|
    ensures Conserves(Visit(shards, i, outcome).0, planned)
  {
    if !shards[i].status.Superseded? {
      var s := Sync(shards[i]);
      var synced := shards[i := s];
      UpdateConserves(shards, planned, i, s);
      if Oversize(s) {
        match Effective(s, outcome)
        case Proceed => HalveConserves(synced, planned, i, 2);
        case Refuse(reason) => UpdateConserves(synced, planned, i, NoteRefusal(s, reason));
        case Break =>
        case BreakAfter(offloads) => HalveConserves(synced, planned, i, offloads);
      }
    }
  }

  lemma {:induction false} VisitFromConserves<Row(!new)>(shards: seq<Shard<Row>>, planned: seq<seq<Row>>, i: nat, n: nat, outcomes: nat -> Outcome)
    requires Conserves(shards, planned) && i <= n <= |shards|
    ensures Conserves(VisitFrom(shards, i, n, outcomes).0, planned)
    decreases n - i
  {
    if i != n {
      VisitConserves(shards, planned, i, outcomes(i));
      VisitGrows(shards, i, outcomes(i));
      var (next, ended) := Visit(shards, i, outcomes(i));
      if !ended {
        VisitFromConserves(next, planned, i + 1, n, outcomes);
      }
    }
  }

  lemma ReconcileConserves<Row(!new)>(job: Job<Row>, planned: seq<seq<Row>>, call: Call)
    requires Conserves(job.shards, planned)
    ensures Conserves(Reconciled(job, call).shards, planned)
  {
    var visited := VisitAll(job.shards, call).0;
    VisitFromConserves(job.shards, planned, 0, |job.shards|, call.outcomes);
    forall m: Measure<Row> | Fixed(m) ensures Total(SyncActive(visited), m) == Total(visited, m) {
      TotalsAgree(SyncActive(visited), m, visited, m);
    }
    SameTotalsConserve(visited, SyncActive(visited), planned);
  }

  // ----- Runs -----

  datatype Event =
    | OffloadMoves(shard: nat, offload: Offload)  // a worker reports on one orchestration job
    | ReconcileCall(call: Call)
    | CancelRequest

  function Apply<Row>(job: Job<Row>, e: Event): Job<Row> {
    match e
    case OffloadMoves(i, offload) =>
      if i < |job.shards| && job.shards[i].offload.Some?
      then job.(shards := job.shards[i := job.shards[i].(offload := Some(offload))]) else job
    case ReconcileCall(call) => Reconciled(job, call)
    case CancelRequest => job.(status := JobCanceled)
  }

  function Run<Row>(job: Job<Row>, events: seq<Event>): Job<Row> {
    if events == [] then job else Apply(Run(job, events[..|events| - 1]), events[|events| - 1])
  }

  function Adopted<Row>(plans: seq<Plan<Row>>): (r: seq<Shard<Row>>)
    ensures |r| == |plans|
  {
    seq(|plans|, i requires 0 <= i < |plans| =>
      Shard(plans[i].index, plans[i].rows, Queued, None, "", Some(Offload(OffloadQueued, None, "")), i))
  }

  function StartJob<Row>(plans: seq<Plan<Row>>): Job<Row> {
    Job(JobRunning, |plans|, 0, Adopted(plans))
  }

  function PlanRows<Row>(plans: seq<Plan<Row>>): (r: seq<seq<Row>>)
    ensures |r| == |plans|
  {
    seq(|plans|, i requires 0 <= i < |plans| => plans[i].rows)
  }

  lemma {:induction false} AdoptedTotals<Row>(plans: seq<Plan<Row>>, m: Measure<Row>)
    ensures Total(Adopted(plans), m) == if m.o < |plans| then Amount(m, Adopted(plans)[m.o]) else 0
  {
    if plans != [] {
      var init := plans[..|plans| - 1];
      AdoptedTotals(init, m);
      assert Adopted(plans)[..|init|] == Adopted(init);
    }
  }

  lemma AdoptionConserves<Row(!new)>(plans: seq<Plan<Row>>)
    requires Indexed(plans)
    ensures Conserves(Adopted(plans), PlanRows(plans))
  {
    forall m: Measure<Row> { AdoptedTotals(plans, m); }
  }

  /** Over any serial run the active shards hold exactly the planned rows, and indices stay unique. */
  lemma {:induction false} RunConserves<Row(!new)>(plans: seq<Plan<Row>>, events: seq<Event>)
    requires Indexed(plans)
    ensures Conserves(Run(StartJob(plans), events).shards, PlanRows(plans))
  {
    if events == [] {
      AdoptionConserves(plans);
    } else {
      var init, e := events[..|events| - 1], events[|events| - 1];
      RunConserves(plans, init);
      var job := Run(StartJob(plans), init);
      match e
      case OffloadMoves(i, offload) =>
        if i < |job.shards| && job.shards[i].offload.Some? {
          UpdateConserves(job.shards, PlanRows(plans), i, job.shards[i].(offload := Some(offload)));
        }
      case ReconcileCall(call) => ReconcileConserves(job, PlanRows(plans), call);
      case CancelRequest =>
    }
  }

  /** A planned shard of n >= 1 rows never gives rise to more than 2n - 1 shards in all. */
  lemma AtMostTwiceRowsShards<Row(!new)>(plans: seq<Plan<Row>>, events: seq<Event>, o: nat)
    requires Indexed(plans) && o < |plans|
    ensures Total(Run(StartJob(plans), events).shards, Descendants(o)) <= MostShards(|plans[o].rows|)
  {
    RunConserves(plans, events);
    TotalsOrdered(Run(StartJob(plans), events).shards, Descendants(o), Budget(o));
  }

  // ----- What success means -----

  predicate Pending<Row>(s: Shard<Row>) {
    !s.status.Superseded? && !s.status.Succeeded?
  }

  ghost predicate AllSucceeded<Row>(shards: seq<Shard<Row>>) {
    forall i :: 0 <= i < |shards| ==> !Pending(shards[i])
  }

  /** Each row of each planned shard lies in exactly one succeeded shard. */
  ghost predicate Delivers<Row(!new)>(shards: seq<Shard<Row>>, plans: seq<Plan<Row>>) {
    forall o, row :: 0 <= o < |plans| ==> Total(shards, Delivered(o, row)) == multiset(plans[o].rows)[row]
  }

  /** The most recent reconciliation of the run was neither skipped nor cut short. */
  ghost predicate LastCallCompleted<Row>(job: Job<Row>, events: seq<Event>) {
    events != [] &&
    var init, e := events[..|events| - 1], events[|events| - 1];
    if e.ReconcileCall? then Completes(Run(job, init), e.call) else LastCallCompleted(job, init)
  }

  ghost predicate QueuedFrom<Row>(shards: seq<Shard<Row>>, n: nat) {
    exists k :: n <= k < |shards| && shards[k].status.Queued?
  }

  /** A split leaves queued replacements behind the shards the call set out to visit. */
  lemma VisitQueues<Row>(shards: seq<Shard<Row>>, i: nat, n: nat, outcome: Outcome)
    requires i < n <= |shards|
    ensures var next := Visit(shards, i, outcome).0;
            QueuedFrom(shards, n) || |next| > |shards| ==> QueuedFrom(next, n)
  {
    var next := Visit(shards, i, outcome).0;
    if |next| > |shards| {
      assert next[|shards|].status.Queued?;
    } else if k :| n <= k < |shards| && shards[k].status.Queued? {
      assert next[k] == shards[k];
    }
  }

  lemma {:induction false} VisitFromQueues<Row>(shards: seq<Shard<Row>>, i: nat, n: nat, outcomes: nat -> Outcome)
    requires i <= n <= |shards|
    ensures var visited := VisitFrom(shards, i, n, outcomes).0;
            QueuedFrom(shards, n) || |visited| > |shards| ==> QueuedFrom(visited, n)
    decreases n - i
  {
    if i != n {
      VisitGrows(shards, i, outcomes(i));
      VisitQueues(shards, i, n, outcomes(i));
      var (next, ended) := Visit(shards, i, outcomes(i));
      if !ended {
        VisitFromQueues(next, i + 1, n, outcomes);
      }
    }
  }

  lemma {:induction false} EndedIsPending<Row>(shards: seq<Shard<Row>>, i: nat, n: nat, outcomes: nat -> Outcome)
    requires i <= n <= |shards| && VisitFrom(shards, i, n, outcomes).1
    ensures !AllSucceeded(VisitFrom(shards, i, n, outcomes).0)
    decreases n - i
  {
    VisitGrows(shards, i, outcomes(i));
    var (next, ended) := Visit(shards, i, outcomes(i));
    if ended {
      assert Pending(next[i]) || Pending(next[|next| - 1]);
    } else {
      EndedIsPending(next, i + 1, n, outcomes);
    }
  }

  /** A call that is cut short leaves some active shard that has not succeeded. */
  lemma CutShortIsPending<Row>(shards: seq<Shard<Row>>, call: Call)
    requires VisitAll(shards, call).1
    ensures !AllSucceeded(VisitAll(shards, call).0)
  {
    var (visited, ended) := VisitFrom(shards, 0, |shards|, call.outcomes);
    if ended {
      EndedIsPending(shards, 0, |shards|, call.outcomes);
    } else {
      VisitFromQueues(shards, 0, |shards|, call.outcomes);
      var k :| |shards| <= k < |visited| && visited[k].status.Queued?;
      assert Pending(visited[k]);
    }
  }

  lemma FoldedSuccess<Row>(shards: seq<Shard<Row>>)
    requires FoldStatus(ActiveStatuses(shards)).JobSucceeded?
    ensures AllSucceeded(shards)
  {
    forall i | 0 <= i < |shards| ensures !Pending(shards[i]) {
      assert shards[i].status.Superseded? || shards[i].status in ActiveStatuses(shards);
    }
  }

  /** One step: while a job reads SUCCEEDED, its active shards all have, unless a call on it was cut short. */
  lemma SuccessHoldsIff<Row>(job: Job<Row>, e: Event)
    requires job.status.JobSucceeded? ==> AllSucceeded(job.shards)
    ensures (Apply(job, e).status.JobSucceeded? ==> AllSucceeded(Apply(job, e).shards)) <==>
            !(e.ReconcileCall? && job.status.JobSucceeded? && !Completes(job, e.call))
  {
    match e
    case OffloadMoves(i, offload) =>
      assert forall k :: 0 <= k < |job.shards| ==> Apply(job, e).shards[k].status == job.shards[k].status;
    case ReconcileCall(call) =>
      if Completes(job, call) {
        if Reconciled(job, call).status.JobSucceeded? { FoldedSuccess(Reconciled(job, call).shards); }
      } else if !job.status.JobCanceled? {
        CutShortIsPending(job.shards, call);
      }
    case CancelRequest =>
  }

  /** A whole run: a job that reads SUCCEEDED has only succeeded active shards exactly when its
      last reconciliation ran to its end. */
  lemma {:induction false} SucceededIffCompleted<Row>(plans: seq<Plan<Row>>, events: seq<Event>)
    requires Run(StartJob(plans), events).status.JobSucceeded?
    ensures AllSucceeded(Run(StartJob(plans), events).shards) <==> LastCallCompleted(StartJob(plans), events)
  {
    if events != [] {
      var init, e := events[..|events| - 1], events[|events| - 1];
      var job := Run(StartJob(plans), init);
      match e
      case OffloadMoves(i, offload) =>
        SucceededIffCompleted(plans, init);
        assert forall k :: 0 <= k < |job.shards| ==> Apply(job, e).shards[k].status == job.shards[k].status;
      case ReconcileCall(call) =>
        if Completes(job, call) { FoldedSuccess(Reconciled(job, call).shards); } else { CutShortIsPending(job.shards, call); }
      case CancelRequest =>
    }
  }

  lemma AllSucceededDelivers<Row(!new)>(shards: seq<Shard<Row>>, plans: seq<Plan<Row>>)
    requires Conserves(shards, PlanRows(plans)) && AllSucceeded(shards)
    ensures Delivers(shards, plans)
  {
    forall o, row | 0 <= o < |plans| ensures Total(shards, Delivered(o, row)) == multiset(plans[o].rows)[row] {
      forall i | 0 <= i < |shards| ensures Amount(Delivered(o, row), shards[i]) == Amount(Held(o, row), shards[i]) {
        assert !Pending(shards[i]);
      }
      TotalsAgree(shards, Delivered(o, row), shards, Held(o, row));
    }
  }

  lemma {:induction false} TotalsApart<Row>(a: seq<Shard<Row>>, m: Measure<Row>, n: Measure<Row>, i: nat)
    requires i < |a| && Amount(m, a[i]) < Amount(n, a[i]) && forall s: Shard<Row> :: Amount(m, s) <= Amount(n, s)
    ensures Total(a, m) < Total(a, n)
  {
    if i == |a| - 1 {
      TotalsOrdered(a[..|a| - 1], m, n);
    } else {
      TotalsApart(a[..|a| - 1], m, n, i);
    }
  }

  /** A pending shard with a row keeps that row from being delivered. */
  lemma PendingRowMissing<Row(!new)>(shards: seq<Shard<Row>>, plans: seq<Plan<Row>>, i: nat)
    requires Conserves(shards, PlanRows(plans)) && i < |shards| && Pending(shards[i]) && shards[i].rows != []
    ensures !Delivers(shards, plans)
  {
    var o, row := shards[i].origin, shards[i].rows[0];
    assert row in multiset(shards[i].rows);
    TotalsApart(shards, Delivered(o, row), Held(o, row), i);
    assert PlanRows(plans)[o] == plans[o].rows;
  }

  ghost predicate HoldRows<Row>(shards: seq<Shard<Row>>) {
    forall i :: 0 <= i < |shards| ==> shards[i].rows != []
  }

  lemma {:induction false} VisitFromHolds<Row>(shards: seq<Shard<Row>>, i: nat, n: nat, outcomes: nat -> Outcome)
    requires HoldRows(shards) && i <= n <= |shards|
    ensures HoldRows(VisitFrom(shards, i, n, outcomes).0)
    decreases n - i
  {
    if i != n {
      VisitGrows(shards, i, outcomes(i));
      var (next, ended) := Visit(shards, i, outcomes(i));
      assert HoldRows(next);
      if !ended {
        VisitFromHolds(next, i + 1, n, outcomes);
      }
    }
  }

  /** No shard is ever empty if no planned shard is. */
  lemma {:induction false} RunHoldsRows<Row>(plans: seq<Plan<Row>>, events: seq<Event>)
    requires forall i :: 0 <= i < |plans| ==> plans[i].rows != []
    ensures HoldRows(Run(StartJob(plans), events).shards)
  {
    if events != [] {
      var init, e := events[..|events| - 1], events[|events| - 1];
      RunHoldsRows(plans, init);
      var job := Run(StartJob(plans), init);
      if e.ReconcileCall? {
        VisitFromHolds(job.shards, 0, |job.shards|, e.call.outcomes);
      }
    }
  }

  /** Whenever a job reads SUCCEEDED, each planned row lies in exactly one succeeded shard if its last
      reconciliation ran to its end, and, no planned shard being empty, only then. */
  lemma SucceededMeansDelivered<Row(!new)>(plans: seq<Plan<Row>>, events: seq<Event>)
    requires Indexed(plans) && Run(StartJob(plans), events).status.JobSucceeded?
    ensures LastCallCompleted(StartJob(plans), events) ==> Delivers(Run(StartJob(plans), events).shards, plans)
    ensures (forall i :: 0 <= i < |plans| ==> plans[i].rows != []) ==>
              (Delivers(Run(StartJob(plans), events).shards, plans) <==> LastCallCompleted(StartJob(plans), events))
  {
    hide Run, Delivers, LastCallCompleted, Conserves;
    var shards := Run(StartJob(plans), events).shards;
    RunConserves(plans, events);
    SucceededIffCompleted(plans, events);
    if AllSucceeded(shards) {
      AllSucceededDelivers(shards, plans);
    } else if forall i :: 0 <= i < |plans| ==> plans[i].rows != [] {
      RunHoldsRows(plans, events);
      var i :| 0 <= i < |shards| && Pending(shards[i]);
      PendingRowMissing(shards, plans, i);
    }
  }

  // ----- Runs in which a succeeded offload stays so -----

  predicate Settled<Row>(s: Shard<Row>) {
    s.status.Succeeded? ==> s.offload.Some? && s.offload.value.status.OffloadSucceeded?
  }

  ghost predicate AllSettled<Row>(shards: seq<Shard<Row>>) {
    forall i :: 0 <= i < |shards| ==> Settled(shards[i])
  }

  /** No event of the run takes an offload out of its succeeded status. */
  ghost predicate Steady<Row>(job: Job<Row>, events: seq<Event>) {
    events == [] ||
    var init, e := events[..|events| - 1], events[|events| - 1];
    && Steady(job, init)
    && (e.OffloadMoves? ==>
          var shards := Run(job, init).shards;
          e.shard < |shards| && shards[e.shard].offload.Some? && shards[e.shard].offload.value.status.OffloadSucceeded?
          ==> e.offload.status.OffloadSucceeded?)
  }

  lemma {:induction false} VisitFromSettles<Row>(shards: seq<Shard<Row>>, i: nat, n: nat, outcomes: nat -> Outcome)
    requires AllSettled(shards) && i <= n <= |shards|
    ensures var (visited, ended) := VisitFrom(shards, i, n, outcomes);
            AllSettled(visited) && (AllSucceeded(shards) ==> !ended && |visited| == |shards|)
    decreases n - i
  {
    if i != n {
      VisitGrows(shards, i, outcomes(i));
      var (next, ended) := Visit(shards, i, outcomes(i));
      assert AllSettled(next);
      if AllSucceeded(shards) {
        assert !Pending(shards[i]);
        assert !ended && |next| == |shards| && AllSucceeded(next);
      }
      if !ended {
        VisitFromSettles(next, i + 1, n, outcomes);
      }
    }
  }

  ghost predicate SettledJob<Row>(job: Job<Row>) {
    AllSettled(job.shards) && (job.status.JobSucceeded? ==> AllSucceeded(job.shards))
  }

  lemma CallSettles<Row>(job: Job<Row>, call: Call)
    requires SettledJob(job)
    ensures SettledJob(Reconciled(job, call))
  {
    hide VisitFrom, AllSucceeded;
    VisitFromSettles(job.shards, 0, |job.shards|, call.outcomes);
    var visited := VisitAll(job.shards, call).0;
    assert AllSettled(SyncActive(visited));
    if Completes(job, call) && Reconciled(job, call).status.JobSucceeded? {
      FoldedSuccess(SyncActive(visited));
    }
  }

  lemma MoveSettles<Row>(job: Job<Row>, i: nat, o: Offload)
    requires SettledJob(job) && i < |job.shards| && job.shards[i].offload.Some?
    requires job.shards[i].offload.value.status.OffloadSucceeded? ==> o.status.OffloadSucceeded?
    ensures SettledJob(Apply(job, OffloadMoves(i, o)))
  {
    var shards := Apply(job, OffloadMoves(i, o)).shards;
    forall k | 0 <= k < |shards| ensures Settled(shards[k]) && Pending(shards[k]) == Pending(job.shards[k]) {
      assert Settled(job.shards[k]);
    }
  }

  lemma {:induction false} SteadyRunSettles<Row>(plans: seq<Plan<Row>>, events: seq<Event>)
    requires Steady(StartJob(plans), events)
    ensures SettledJob(Run(StartJob(plans), events))
  {
    hide Reconciled, AllSucceeded;
    if events != [] {
      var init, e := events[..|events| - 1], events[|events| - 1];
      SteadyRunSettles(plans, init);
      var job := Run(StartJob(plans), init);
      match e
      case OffloadMoves(i, o) =>
        if i < |job.shards| && job.shards[i].offload.Some? { MoveSettles(job, i, o); }
      case ReconcileCall(call) => CallSettles(job, call);
      case CancelRequest =>
    }
  }

  /** In every run in which succeeded offloads stay so, SUCCEEDED always means delivered. */
  lemma SteadySuccessDelivers<Row(!new)>(plans: seq<Plan<Row>>, events: seq<Event>)
    requires Indexed(plans) && Steady(StartJob(plans), events) && Run(StartJob(plans), events).status.JobSucceeded?
    ensures Delivers(Run(StartJob(plans), events).shards, plans)
  {
    hide Run, Steady;
    RunConserves(plans, events);
    SteadyRunSettles(plans, events);
    AllSucceededDelivers(Run(StartJob(plans), events).shards, plans);
  }

  // ----- A run in which success misleads -----

  const CLEAR := Call(_ => Proceed, true)
  const CUT := Call(_ => Break, true)

  function Rerun(): seq<Event> {
    [OffloadMoves(0, Offload(OffloadSucceeded, Some(1), ""))] + [ReconcileCall(CLEAR)]
    + [OffloadMoves(0, Offload(OffloadFailed, None, OVERSIZE))] + [ReconcileCall(CUT)]
  }

  lemma RunAppend<Row>(job: Job<Row>, events: seq<Event>, e: Event)
    ensures Run(job, events + [e]) == Apply(Run(job, events), e)
  {
    assert (events + [e])[..|events|] == events;
  }

  /** An offload that succeeded and was folded is run again and refused as oversize; storage then
      fails before the job row is saved. The job still reads SUCCEEDED, and its row is delivered nowhere. */
  lemma SuccessCanMislead()
    ensures var job := Run(StartJob([Plan(0, [7])]), Rerun());
            job.status.JobSucceeded? && Total(job.shards, Delivered(0, 7)) == 0
  {
    var job0 := StartJob([Plan(0, [7])]);
    var e1, e2 := OffloadMoves(0, Offload(OffloadSucceeded, Some(1), "")), ReconcileCall(CLEAR);
    var e3, e4 := OffloadMoves(0, Offload(OffloadFailed, None, OVERSIZE)), ReconcileCall(CUT);
    RunAppend(job0, [], e1);
    RunAppend(job0, [e1], e2);
    RunAppend(job0, [e1] + [e2], e3);
    RunAppend(job0, [e1] + [e2] + [e3], e4);
    assert [] + [e1] == [e1];
    var job1 := Apply(job0, e1);
    hide Run;
    FoldsOne(job1);
    var job3 := Apply(Apply(job1, e2), e3);
    CutsOne(job3);
  }

  /** A job of one shard whose offload succeeded folds to SUCCEEDED. */
  lemma FoldsOne(job: Job<int>)
    requires !job.status.JobCanceled? && |job.shards| == 1 && !job.shards[0].status.Superseded?
    requires job.shards[0].offload.Some? && job.shards[0].offload.value.status.OffloadSucceeded?
    ensures var next := Reconciled(job, CLEAR);
            next.status.JobSucceeded? && next.shards == [Sync(job.shards[0])]
  {
    var visited := VisitAll(job.shards, CLEAR).0;
    var s := Sync(job.shards[0]);
    assert visited == [s] && SyncActive(visited) == [s];
    assert [s][0].status in ActiveStatuses([s]);
    assert ActiveStatuses([s]) == {Succeeded};
  }

  /** A call cut short at a refused shard saves the shard alone. */
  lemma CutsOne(job: Job<int>)
    requires job.status.JobSucceeded? && |job.shards| == 1 && !job.shards[0].status.Superseded?
    requires job.shards[0].offload == Some(Offload(OffloadFailed, None, OVERSIZE))
    ensures var next := Reconciled(job, CUT);
            next.status.JobSucceeded? && Total(next.shards, Delivered(0, 7)) == 0
  {
    assert OccursAt(OVERSIZE, OVERSIZE, 0);
    var next := Reconciled(job, CUT);
    assert next.shards == [Sync(job.shards[0])] && next.shards[..0] == [];
  }

  // ----- What one reconciliation does to each shard -----

  /** The text holds the refusal code at some place. */
  ghost predicate Mentions(text: string) {
    exists before: string, after: string :: text == before + "output_exceeds_max_bytes" + after
  }

  /** The shard's offload failed, and with the refusal that calls for a split. */
  ghost predicate TooLarge<Row>(s: Shard<Row>) {
    s.offload.Some? && s.offload.value.status.OffloadFailed? && Mentions(s.offload.value.error)
  }

  /** A shard without an offload is one whose dispatch was lost, and has not begun. */
  ghost predicate Started<Row>(shards: seq<Shard<Row>>) {
    forall i :: 0 <= i < |shards| && shards[i].offload.None? ==> shards[i].status.Queued?
  }

  ghost predicate SameInput<Row>(s: Shard<Row>, t: Shard<Row>) {
    t.index == s.index && t.rows == s.rows && t.origin == s.origin
  }

  /** The shard has taken what its offload reports; without an offload it stays as it is. */
  ghost predicate Follows<Row>(s: Shard<Row>, t: Shard<Row>) {
    if s.offload.None? then t == s
    else
      var o := s.offload.value;
      && t.offload == s.offload && t.outputRows == o.outputRows && t.error == o.error
      && (t.status.Queued? <==> o.status.OffloadQueued?)
      && (t.status.Running? <==> o.status.OffloadRunning?)
      && (t.status.Succeeded? <==> o.status.OffloadSucceeded?)
      && (t.status.Failed? <==> o.status.OffloadFailed?)
      && (t.status.Canceled? <==> o.status.OffloadCanceled?)
  }

  ghost predicate Splits<Row>(s: Shard<Row>, t: Shard<Row>) {
    && TooLarge(s) && |s.rows| >= 2 && t.status.Superseded?
    && t.offload == s.offload && t.outputRows == s.offload.value.outputRows && t.error == s.offload.value.error
  }

  ghost predicate Notes<Row>(s: Shard<Row>, t: Shard<Row>, reason: string) {
    && TooLarge(s) && t.status.Failed? && t.outputRows == s.offload.value.outputRows
    && t.error == s.offload.value.error + "; replan refused: " + reason
    && t.offload == Some(s.offload.value.(error := t.error))
  }

  /** The call ends at this shard. */
  ghost predicate Cuts<Row>(s: Shard<Row>, outcome: Outcome) {
    !s.status.Superseded? && TooLarge(s) && (outcome.Break? || (outcome.BreakAfter? && |s.rows| >= 2))
  }

  /** The call splits this shard and goes on. */
  ghost predicate Halves<Row>(s: Shard<Row>, outcome: Outcome) {
    !s.status.Superseded? && TooLarge(s) && outcome.Proceed? && |s.rows| >= 2
  }

  /** A call that passed shard s left it as t. */
  ghost predicate Passes<Row>(s: Shard<Row>, t: Shard<Row>, outcome: Outcome) {
    && SameInput(s, t) && !Cuts(s, outcome)
    && if s.status.Superseded? then t == s
       else if !TooLarge(s) then Follows(s, t)
       else if outcome.Refuse? then Notes(s, t, outcome.reason)
       else if |s.rows| < 2 then Notes(s, t, "a one-row shard cannot be split further")
       else Splits(s, t)
  }

  /** A call that may have been cut short left shard s as t. */
  ghost predicate PassesPartly<Row>(s: Shard<Row>, t: Shard<Row>, outcome: Outcome) {
    && SameInput(s, t)
    && (t == s || Passes(s, t, outcome)
        || (Cuts(s, outcome) && if outcome.Break? then Follows(s, t) else Splits(s, t)))
  }

  /** A replacement as it is created, its orchestration job included or lost. */
  ghost predicate IsFresh<Row>(s: Shard<Row>) {
    && s.status.Queued? && s.outputRows.None? && s.error == ""
    && (s.offload.None? || s.offload.value == Offload(OffloadQueued, None, ""))
  }

  ghost predicate IsReady<Row>(s: Shard<Row>) {
    IsFresh(s) && s.offload.Some?
  }

  ghost function Halved<Row>(shards: seq<Shard<Row>>, i: nat, n: nat, outcomes: nat -> Outcome): set<nat>
    requires n <= |shards|
  {
    set k: nat | i <= k < n && Halves(shards[k], outcomes(k))
  }

  ghost predicate SomeCuts<Row>(shards: seq<Shard<Row>>, i: nat, n: nat, outcomes: nat -> Outcome)
    requires n <= |shards|
  {
    exists k :: i <= k < n && Cuts(shards[k], outcomes(k))
  }

  lemma MentionsIff(text: string)
    ensures Mentions(text) <==> Contains(text, OVERSIZE)
  {
    if i: nat :| i <= |text| && OccursAt(text, OVERSIZE, i) {
      assert text == text[..i] + "output_exceeds_max_bytes" + text[i + |OVERSIZE|..];
    }
    if before: string, after: string :| text == before + "output_exceeds_max_bytes" + after {
      assert OccursAt(text, OVERSIZE, |before|);
    }
  }

  lemma VisitMeans<Row>(shards: seq<Shard<Row>>, i: nat, outcome: Outcome)
    requires i < |shards| && Started(shards)
    ensures var (next, ended) := Visit(shards, i, outcome);
            && |next| >= |shards| && Started(next)
            && (forall k :: 0 <= k < |shards| && k != i ==> next[k] == shards[k])
            && (forall k :: |shards| <= k < |next| ==> if ended then IsFresh(next[k]) else IsReady(next[k]))
            && (ended <==> Cuts(shards[i], outcome))
            && (if ended then PassesPartly(shards[i], next[i], outcome) else Passes(shards[i], next[i], outcome))
            && (!ended ==> |next| == |shards| + if Halves(shards[i], outcome) then 2 else 0)
  {
    hide Mentions, Contains, Halve;
    var s := shards[i];
    if !s.status.Superseded? {
      if s.offload.Some? { MentionsIff(s.offload.value.error); }
      var synced := Sync(s);
      if Oversize(synced) {
        var outcome' := Effective(synced, outcome);
        if outcome'.Proceed? { HalveMeans(shards[i := synced], i, 2); }
        if outcome'.BreakAfter? { HalveMeans(shards[i := synced], i, outcome'.offloads); }
      }
    }
  }

  lemma HalveMeans<Row>(shards: seq<Shard<Row>>, i: nat, offloads: nat)
    requires i < |shards|
    ensures var next := Halve(shards, i, offloads);
            && |next| == |shards| + 2 && next[i] == shards[i].(status := Superseded)
            && (forall k :: 0 <= k < |shards| && k != i ==> next[k] == shards[k])
            && (forall k :: |shards| <= k < |next| ==> IsFresh(next[k]) && (offloads >= 2 ==> IsReady(next[k])))
  {
  }

  /** What the pass from shard i on did to shard k. */
  ghost predicate Left<Row>(shards: seq<Shard<Row>>, visited: seq<Shard<Row>>, ended: bool, i: nat, n: nat, k: nat, outcome: Outcome)
    requires k < |shards| <= |visited|
  {
    if k < i || n <= k then visited[k] == shards[k]
    else if ended then PassesPartly(shards[k], visited[k], outcome)
    else Passes(shards[k], visited[k], outcome)
  }

  lemma {:induction false} VisitFromMeans<Row>(shards: seq<Shard<Row>>, i: nat, n: nat, outcomes: nat -> Outcome)
    requires i <= n <= |shards| && Started(shards)
    ensures var (visited, ended) := VisitFrom(shards, i, n, outcomes);
            && |visited| >= |shards| && Started(visited)
            && (forall k :: 0 <= k < |shards| ==> Left(shards, visited, ended, i, n, k, outcomes(k)))
            && (forall k :: |shards| <= k < |visited| ==> if ended then IsFresh(visited[k]) else IsReady(visited[k]))
            && (ended <==> SomeCuts(shards, i, n, outcomes))
            && (!ended ==> |visited| == |shards| + 2 * |Halved(shards, i, n, outcomes)|)
    decreases n - i
  {
    hide Visit, Passes, PassesPartly, Cuts, Halves, IsFresh;
    if i == n {
      assert Halved(shards, i, n, outcomes) == {};
    } else {
      VisitMeans(shards, i, outcomes(i));
      var (next, ended) := Visit(shards, i, outcomes(i));
      if ended {
        assert Cuts(shards[i], outcomes(i));
        forall k | i < k < n ensures PassesPartly(shards[k], next[k], outcomes(k)) { StaysPartly(shards[k], outcomes(k)); }
      } else {
        VisitFromMeans(next, i + 1, n, outcomes);
        var (visited, cut) := VisitFrom(next, i + 1, n, outcomes);
        forall k | 0 <= k < |shards| ensures Left(shards, visited, cut, i, n, k, outcomes(k)) {
          assert Left(next, visited, cut, i + 1, n, k, outcomes(k));
          if k == i { PassedPartly(shards[i], next[i], outcomes(i)); }
        }
        forall k | |shards| <= k < |visited| ensures if cut then IsFresh(visited[k]) else IsReady(visited[k]) {
          if k < |next| { assert Left(next, visited, cut, i + 1, n, k, outcomes(k)); }
        }
        HalvedFrom(shards, next, i, n, outcomes);
        CutsFrom(shards, next, i, n, outcomes);
      }
    }
  }

  lemma StaysPartly<Row>(s: Shard<Row>, outcome: Outcome)
    ensures PassesPartly(s, s, outcome)
  {
  }

  lemma PassedPartly<Row>(s: Shard<Row>, t: Shard<Row>, outcome: Outcome)
    requires Passes(s, t, outcome)
    ensures PassesPartly(s, t, outcome)
  {
  }

  lemma HalvedFrom<Row>(shards: seq<Shard<Row>>, next: seq<Shard<Row>>, i: nat, n: nat, outcomes: nat -> Outcome)
    requires i < n <= |shards| <= |next| && forall k :: i < k < n ==> next[k] == shards[k]
    ensures |Halved(shards, i, n, outcomes)| ==
            |Halved(next, i + 1, n, outcomes)| + if Halves(shards[i], outcomes(i)) then 1 else 0
  {
    hide Halves;
    var rest := Halved(next, i + 1, n, outcomes);
    if Halves(shards[i], outcomes(i)) {
      assert Halved(shards, i, n, outcomes) == {i} + rest;
    } else {
      assert Halved(shards, i, n, outcomes) == rest;
    }
  }

  lemma CutsFrom<Row>(shards: seq<Shard<Row>>, next: seq<Shard<Row>>, i: nat, n: nat, outcomes: nat -> Outcome)
    requires i < n <= |shards| <= |next| && forall k :: i < k < n ==> next[k] == shards[k]
    requires !Cuts(shards[i], outcomes(i))
    ensures SomeCuts(shards, i, n, outcomes) <==> SomeCuts(next, i + 1, n, outcomes)
  {
    hide Cuts;
    if k :| i <= k < n && Cuts(shards[k], outcomes(k)) {
      assert Cuts(next[k], outcomes(k));
    }
    if k :| i + 1 <= k < n && Cuts(next[k], outcomes(k)) {
      assert Cuts(shards[k], outcomes(k));
    }
  }

  lemma {:induction false} RunStarts<Row>(plans: seq<Plan<Row>>, events: seq<Event>)
    ensures Started(Run(StartJob(plans), events).shards)
  {
    hide Reconciled;
    if events != [] {
      var init, e := events[..|events| - 1], events[|events| - 1];
      RunStarts(plans, init);
      if e.ReconcileCall? { CallStarts(Run(StartJob(plans), init), e.call); }
    }
  }

  lemma CallStarts<Row>(job: Job<Row>, call: Call)
    requires Started(job.shards)
    ensures Started(Reconciled(job, call).shards)
  {
    hide VisitFrom;
    VisitFromMeans(job.shards, 0, |job.shards|, call.outcomes);
    var visited := VisitAll(job.shards, call).0;
    forall i | 0 <= i < |visited| && SyncActive(visited)[i].offload.None? ensures SyncActive(visited)[i].status.Queued? {
      assert visited[i].offload.None?;
    }
  }

  /** A shard that the call has passed, or created, is not changed by synchronising it once more. */
  lemma PassedIsSynced<Row>(s: Shard<Row>, t: Shard<Row>, outcome: Outcome)
    requires Passes(s, t, outcome) && !t.status.Superseded?
    ensures Sync(t) == t
  {
  }

  lemma FreshIsSynced<Row>(t: Shard<Row>)
    requires IsFresh(t)
    ensures Sync(t) == t
  {
  }

  /** The call runs to its end exactly if the job is not cancelled, storage fails at no shard that is
      to be split, and whatever is split can be dispatched. */
  ghost predicate RunsThrough<Row>(job: Job<Row>, call: Call) {
    var n := |job.shards|;
    && !job.status.JobCanceled? && !SomeCuts(job.shards, 0, n, call.outcomes)
    && (call.dispatches || Halved(job.shards, 0, n, call.outcomes) == {})
  }

  lemma CompletesIff<Row>(job: Job<Row>, call: Call)
    requires Started(job.shards)
    ensures Completes(job, call) <==> RunsThrough(job, call)
  {
    hide VisitFrom, SomeCuts;
    VisitFromMeans(job.shards, 0, |job.shards|, call.outcomes);
    var halved := Halved(job.shards, 0, |job.shards|, call.outcomes);
    assert |halved| == 0 <==> halved == {};
  }

  ghost predicate Has<Row>(shards: seq<Shard<Row>>, status: Status) {
    exists i :: 0 <= i < |shards| && shards[i].status == status
  }

  /** The status of the whole job, read from the statuses its shards have. */
  ghost predicate Summarises<Row>(status: JobStatus, shards: seq<Shard<Row>>) {
    var pending := Has(shards, Running) || Has(shards, Queued);
    && (status.JobRunning? <==> pending)
    && (status.JobSucceeded? <==> !pending && Has(shards, Succeeded) && !Has(shards, Failed) && !Has(shards, Canceled))
    && (status.JobPartial? <==> !pending && Has(shards, Succeeded) && (Has(shards, Failed) || Has(shards, Canceled)))
    && (status.JobCanceled? <==> !pending && !Has(shards, Succeeded) && !Has(shards, Failed) && Has(shards, Canceled))
    && (status.JobFailed? <==> !pending && !Has(shards, Succeeded) && (Has(shards, Failed) || !Has(shards, Canceled)))
  }

  lemma FoldSummarises<Row>(shards: seq<Shard<Row>>)
    ensures Summarises(FoldStatus(ActiveStatuses(shards)), shards)
  {
    var statuses := ActiveStatuses(shards);
    forall st: Status | !st.Superseded? ensures st in statuses <==> Has(shards, st) {
    }
    assert Superseded !in statuses;
    forall st: Status ensures st in statuses ==> st in {Queued, Running, Succeeded, Failed, Canceled} {
    }
    assert Has(shards, Succeeded) && !Has(shards, Running) && !Has(shards, Queued) && !Has(shards, Failed) && !Has(shards, Canceled)
      ==> statuses == {Succeeded};
    assert Has(shards, Canceled) && !Has(shards, Running) && !Has(shards, Queued) && !Has(shards, Failed) && !Has(shards, Succeeded)
      ==> statuses == {Canceled};
  }

  /** The shards still active, and the rows they report, each numbered by its shard. */
  ghost function ActiveSet<Row>(shards: seq<Shard<Row>>): set<nat> {
    set i: nat | i < |shards| && !shards[i].status.Superseded?
  }

  ghost function ReportedRows<Row>(shards: seq<Shard<Row>>): set<(nat, nat)> {
    set i: nat, k: nat | i in ActiveSet(shards) && shards[i].outputRows.Some? && k < shards[i].outputRows.value :: (i, k)
  }

  ghost function RowsOf(i: nat, n: nat): set<(nat, nat)> {
    set k: nat | k < n :: (i, k)
  }

  lemma {:induction false} RowsOfCount(i: nat, n: nat)
    ensures |RowsOf(i, n)| == n
  {
    if n > 0 {
      RowsOfCount(i, n - 1);
      assert RowsOf(i, n) == RowsOf(i, n - 1) + {(i, n - 1)};
    }
  }

  lemma {:induction false} TotalsCount<Row>(shards: seq<Shard<Row>>)
    ensures ActiveCount(shards) == |ActiveSet(shards)| && RowsTotal(shards) == |ReportedRows(shards)|
  {
    if shards == [] {
      assert ReportedRows(shards) == {} && ActiveSet(shards) == {};
    } else {
      var n, last := |shards| - 1, shards[|shards| - 1];
      var init := shards[..n];
      TotalsCount(init);
      var rows := if last.status.Superseded? || last.outputRows.None? then 0 else last.outputRows.value;
      RowsOfCount(n, rows);
      ActiveGrows(shards);
      ReportedGrows(shards, rows);
    }
  }

  lemma ActiveGrows<Row>(shards: seq<Shard<Row>>)
    requires shards != []
    ensures |ActiveSet(shards)| ==
            |ActiveSet(shards[..|shards| - 1])| + if shards[|shards| - 1].status.Superseded? then 0 else 1
  {
    var n := |shards| - 1;
    assert ActiveSet(shards) == ActiveSet(shards[..n]) + if shards[n].status.Superseded? then {} else {n};
  }

  lemma ReportedGrows<Row>(shards: seq<Shard<Row>>, rows: nat)
    requires shards != []
    requires var last := shards[|shards| - 1];
             rows == if last.status.Superseded? || last.outputRows.None? then 0 else last.outputRows.value
    ensures |ReportedRows(shards)| == |ReportedRows(shards[..|shards| - 1])| + |RowsOf(|shards| - 1, rows)|
  {
    var n := |shards| - 1;
    var before, more := ReportedRows(shards[..n]), RowsOf(n, rows);
    forall i: nat, k: nat ensures (i, k) in ReportedRows(shards) <==> (i, k) in before || (i, k) in more {
    }
    assert ReportedRows(shards) == before + more;
    assert before !! more;
  }

  /** Any call on a reachable job, shard by shard and on the offloads' own reports: which shards are
      split, which refusals are noted, and what every other shard takes over. */
  lemma CallMeans<Row>(plans: seq<Plan<Row>>, events: seq<Event>, call: Call)
    ensures var job := Run(StartJob(plans), events);
            var next := Run(StartJob(plans), events + [ReconcileCall(call)]);
            && |next.shards| >= |job.shards|
            && (job.status.JobCanceled? ==> next == job)
            && (forall i :: 0 <= i < |job.shards| ==> PassesPartly(job.shards[i], next.shards[i], call.outcomes(i)))
            && (forall i :: |job.shards| <= i < |next.shards| ==> IsFresh(next.shards[i]))
            && (!RunsThrough(job, call) ==> next == job.(shards := next.shards))
            && (RunsThrough(job, call) ==>
                  && (forall i :: 0 <= i < |job.shards| ==> Passes(job.shards[i], next.shards[i], call.outcomes(i)))
                  && (forall i :: |job.shards| <= i < |next.shards| ==> IsReady(next.shards[i]))
                  && |next.shards| == |job.shards| + 2 * |Halved(job.shards, 0, |job.shards|, call.outcomes)|
                  && Summarises(next.status, next.shards)
                  && next.shardCount == |ActiveSet(next.shards)| && next.rowsTotal == |ReportedRows(next.shards)|)
  {
    var job := Run(StartJob(plans), events);
    RunAppend(StartJob(plans), events, ReconcileCall(call));
    RunStarts(plans, events);
    OneCallMeans(job, call);
  }

  lemma OneCallMeans<Row>(job: Job<Row>, call: Call)
    requires Started(job.shards)
    ensures var next := Reconciled(job, call);
            && |next.shards| >= |job.shards|
            && (job.status.JobCanceled? ==> next == job)
            && (forall i :: 0 <= i < |job.shards| ==> PassesPartly(job.shards[i], next.shards[i], call.outcomes(i)))
            && (forall i :: |job.shards| <= i < |next.shards| ==> IsFresh(next.shards[i]))
            && (!RunsThrough(job, call) ==> next == job.(shards := next.shards))
            && (RunsThrough(job, call) ==>
                  && (forall i :: 0 <= i < |job.shards| ==> Passes(job.shards[i], next.shards[i], call.outcomes(i)))
                  && (forall i :: |job.shards| <= i < |next.shards| ==> IsReady(next.shards[i]))
                  && |next.shards| == |job.shards| + 2 * |Halved(job.shards, 0, |job.shards|, call.outcomes)|
                  && Summarises(next.status, next.shards)
                  && next.shardCount == |ActiveSet(next.shards)| && next.rowsTotal == |ReportedRows(next.shards)|)
  {
    hide VisitFrom, Passes, PassesPartly, RunsThrough, IsFresh, FoldStatus, ActiveStatuses, Halved, SomeCuts, Summarises, Started, Sync;
    var n, next := |job.shards|, Reconciled(job, call);
    CompletesIff(job, call);
    VisitFromMeans(job.shards, 0, n, call.outcomes);
    var visited := VisitAll(job.shards, call).0;
    if Completes(job, call) {
      forall i | 0 <= i < n ensures Passes(job.shards[i], visited[i], call.outcomes(i)) {
        assert Left(job.shards, visited, false, 0, n, i, call.outcomes(i));
      }
      forall i | 0 <= i < |visited| ensures SyncActive(visited)[i] == visited[i] {
        if !visited[i].status.Superseded? {
          if i < n { PassedIsSynced(job.shards[i], visited[i], call.outcomes(i)); } else { FreshIsSynced(visited[i]); }
        }
      }
      assert SyncActive(visited) == visited;
      FoldSummarises(visited);
      TotalsCount(visited);
      forall i | 0 <= i < n ensures PassesPartly(job.shards[i], visited[i], call.outcomes(i)) {
        PassedPartly(job.shards[i], visited[i], call.outcomes(i));
      }
    } else {
      forall i | 0 <= i < n ensures PassesPartly(job.shards[i], next.shards[i], call.outcomes(i)) {
        if job.status.JobCanceled? {
          StaysPartly(job.shards[i], call.outcomes(i));
        } else {
          var cut := VisitFrom(job.shards, 0, n, call.outcomes).1;
          assert Left(job.shards, visited, cut, 0, n, i, call.outcomes(i));
          if !cut { PassedPartly(job.shards[i], visited[i], call.outcomes(i)); }
        }
      }
    }
  }

  /** A call retires only active shards of at least two rows whose offload failed with the refusal
      code, and, when every split succeeds, all of those. */
  lemma SplitsExactly<Row>(plans: seq<Plan<Row>>, events: seq<Event>, call: Call, i: nat)
    requires i < |Run(StartJob(plans), events).shards|
    ensures var job := Run(StartJob(plans), events);
            var s := job.shards[i];
            var t := Run(StartJob(plans), events + [ReconcileCall(call)]).shards;
            && i < |t|
            && (t[i].status.Superseded? && !s.status.Superseded? ==>
                  |s.rows| >= 2 && s.offload.Some? && s.offload.value.status.OffloadFailed? && Mentions(s.offload.value.error))
            && (!job.status.JobCanceled? && call.dispatches && (forall k :: call.outcomes(k).Proceed?) ==>
                  (t[i].status.Superseded? && !s.status.Superseded? <==>
                     (!s.status.Superseded? && |s.rows| >= 2 && s.offload.Some? && s.offload.value.status.OffloadFailed?
                      && Mentions(s.offload.value.error))))
  {
    hide Run, Mentions;
    CallMeans(plans, events, call);
  }

  /** A plain failure is not split: the single shard and its job both end FAILED. */
  lemma TimeoutFails()
    ensures var job := Run(StartJob([Plan(0, [1, 2])]), [OffloadMoves(0, Offload(OffloadFailed, None, "timeout")), ReconcileCall(CLEAR)]);
            job.status.JobFailed? && |job.shards| == 1 && job.shards[0].status.Failed? && job.shards[0].rows == [1, 2]
  {
    var job0, e := StartJob([Plan(0, [1, 2])]), OffloadMoves(0, Offload(OffloadFailed, None, "timeout"));
    RunAppend(job0, [], e);
    RunAppend(job0, [e], ReconcileCall(CLEAR));
    assert [] + [e] == [e] && [e] + [ReconcileCall(CLEAR)] == [e, ReconcileCall(CLEAR)];
    var job := Apply(job0, e);
    assert |job.shards| == 1 && job.shards[0].rows == [1, 2];
    NoMention();
    hide Run, Reconciled, Mentions;
    LoneFailure(job);
  }

  lemma LoneFailure<Row>(job: Job<Row>)
    requires !job.status.JobCanceled? && |job.shards| == 1 && !job.shards[0].status.Superseded?
    requires job.shards[0].offload.Some? && job.shards[0].offload.value.status.OffloadFailed?
    requires !Mentions(job.shards[0].offload.value.error)
    ensures var next := Reconciled(job, CLEAR);
            && next.status.JobFailed? && |next.shards| == 1 && next.shards[0].status.Failed?
            && next.shards[0].rows == job.shards[0].rows
  {
    hide Reconciled, Mentions;
    OneCallMeans(job, CLEAR);
    assert Halved(job.shards, 0, 1, CLEAR.outcomes) == {};
    var next := Reconciled(job, CLEAR);
    assert Passes(job.shards[0], next.shards[0], Proceed);
    assert Has(next.shards, Failed);
  }

  lemma LengthsAdd(a: string, b: string, c: string)
    ensures |a + b + c| == |a| + |b| + |c|
  {
  }

  lemma NoMention()
    ensures !Mentions("timeout")
  {
    if before: string, after: string :| "timeout" == before + "output_exceeds_max_bytes" + after {
      LengthsAdd(before, "output_exceeds_max_bytes", after);
    }
  }
}
