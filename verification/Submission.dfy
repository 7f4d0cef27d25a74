// submit_extraction under interleaving: any number of calls on one job, each
// planning, deciding under the job lock, and cleaning up after itself.

module Submission {
  import opened Ordering

  /** An input artifact: the planning attempt that wrote it, and its position in that plan. */
  datatype Key = Key(attempt: nat, index: nat)

  datatype JobStatus = Queued | Running | Partial | Succeeded | Failed | Canceled

  /** Where one call stands between two atomic steps. */
  datatype Phase =
    | Ready                                          // delivered, nothing read
    | StatusRead                                     // the job was not cancelled when read
    | Planning(plans: seq<Key>)                      // writing input artifacts
    | Unwinding(plans: seq<Key>, caught: bool)       // planning failed; deleting what it wrote
    | Refusing                                       // about to record the planning failure
    | Splitting(plans: seq<Key>)                     // a replan, writing its two halves inside its transaction
    | Deciding(plans: seq<Key>)                      // planned, before the adoption transaction
    | Discarding(plans: seq<Key>)                    // not adopted; deleting the plan
    | Finished

  /** The job row, its shard rows, object storage and the calls in flight. written and leaked are
      histories: every artifact ever stored, and those left stored by a write or delete that reported a failure. */
  datatype System = System(
    status: JobStatus, shards: seq<Key>, store: set<Key>, calls: map<nat, Phase>,
    written: set<Key>, leaked: set<Key>, adoptions: nat)

  datatype Step =
    | Deliver(call: nat)
    | ReadStatus(call: nat)
    | ReadShards(call: nat)
    | Write(call: nat)
    | WriteFails(call: nat, stored: bool)   // a storage error, before or after the object was stored
    | PlanFails(call: nat, caught: bool)    // any other planning error; caught says submit handles it
    | PlanDone(call: nat)
    | Decide(call: nat)
    | AdoptionFails(call: nat)              // the adoption transaction raises and rolls back
    | Delete(call: nat)
    | DeleteFails(call: nat, removed: bool) // a storage error, before or after the object was removed
    | CleanupDone(call: nat)
    | RecordFailure(call: nat)
    | StartReplan(call: nat)                // a reconciliation begins to split some shard
    | Replanned(call: nat)                  // and commits the two replacements
    | StatusMoves(status: JobStatus)        // cancel routes, sweeps and reconciliations

  function Pending(p: Phase): seq<Key> {
    match p
    case Planning(plans) => plans
    case Splitting(plans) => plans
    case Unwinding(plans, _) => plans
    case Deciding(plans) => plans
    case Discarding(plans) => plans
    case _ => []
  }

  predicate Writing(p: Phase) {
    p.Planning? || (p.Splitting? && |p.plans| < 2)
  }

  /** What follows an error while writing; a replan does not record a failure of the job. */
  function AfterError(p: Phase, caught: bool): Phase
    requires p.Planning? || p.Splitting?
  {
    if p.Planning? then Unwinding(p.plans, caught) else Discarding(p.plans)
  }

  predicate At(s: System, c: nat) {
    c in s.calls
  }

  function Goto(s: System, c: nat, p: Phase): System {
    s.(calls := s.calls[c := p])
  }

  function Shorter(p: Phase): Phase
    requires (p.Unwinding? || p.Discarding?) && p.plans != []
  {
    p.(plans := p.plans[..|p.plans| - 1])
  }

  /** One atomic step; a step that is not enabled changes nothing. */
  function Next(s: System, step: Step): System {
    match step
    case Deliver(c) =>
      if At(s, c) then s else Goto(s, c, Ready)
    case ReadStatus(c) =>
      if !At(s, c) || !s.calls[c].Ready? then s
      else Goto(s, c, if s.status.Canceled? then Finished else StatusRead)
    case ReadShards(c) =>
      if !At(s, c) || !s.calls[c].StatusRead? then s
      else Goto(s, c, if s.shards != [] then Finished else Planning([]))
    case Write(c) =>
      if !At(s, c) || !Writing(s.calls[c]) then s
      else
        var plans := s.calls[c].plans;
        var key := Key(c, |plans|);
        Goto(s, c, s.calls[c].(plans := plans + [key])).(store := s.store + {key}, written := s.written + {key})
    case WriteFails(c, stored) =>
      if !At(s, c) || !Writing(s.calls[c]) then s
      else
        var lost := if stored then {Key(c, |s.calls[c].plans|)} else {};
        Goto(s, c, AfterError(s.calls[c], true)).(store := s.store + lost, written := s.written + lost, leaked := s.leaked + lost)
    case PlanFails(c, caught) =>
      if !At(s, c) || !(s.calls[c].Planning? || s.calls[c].Splitting?) then s
      else Goto(s, c, AfterError(s.calls[c], caught))
    case PlanDone(c) =>
      if !At(s, c) || !s.calls[c].Planning? || s.calls[c].plans == [] then s
      else Goto(s, c, Deciding(s.calls[c].plans))
    case Decide(c) =>
      if !At(s, c) || !s.calls[c].Deciding? then s
      else if s.status.Canceled? || s.shards != [] then Goto(s, c, Discarding(s.calls[c].plans))
      else Goto(s, c, Finished).(shards := s.calls[c].plans, status := Running, adoptions := s.adoptions + 1)
    case AdoptionFails(c) =>
      if !At(s, c) || !s.calls[c].Deciding? then s
      else Goto(s, c, Discarding(s.calls[c].plans))
    case Delete(c) =>
      if !At(s, c) || !(s.calls[c].Unwinding? || s.calls[c].Discarding?) || s.calls[c].plans == [] then s
      else
        var plans := s.calls[c].plans;
        Goto(s, c, Shorter(s.calls[c])).(store := s.store - {plans[|plans| - 1]})
    case DeleteFails(c, removed) =>
      if !At(s, c) || !(s.calls[c].Unwinding? || s.calls[c].Discarding?) || s.calls[c].plans == [] then s
      else
        var plans := s.calls[c].plans;
        var next, key := Shorter(s.calls[c]), plans[|plans| - 1];
        Goto(s, c, if next.Unwinding? then next.(caught := true) else next).(
          store := if removed then s.store - {key} else s.store, leaked := if removed then s.leaked else s.leaked + {key})
    case CleanupDone(c) =>
      if !At(s, c) || !(s.calls[c].Unwinding? || s.calls[c].Discarding?) || s.calls[c].plans != [] then s
      else Goto(s, c, if s.calls[c].Unwinding? && s.calls[c].caught then Refusing else Finished)
    case RecordFailure(c) =>
      if !At(s, c) || !s.calls[c].Refusing? then s
      else if s.status.Canceled? || s.shards != [] then Goto(s, c, Finished)
      else Goto(s, c, Finished).(status := Failed)
    case StartReplan(c) =>
      if At(s, c) || s.shards == [] then s else Goto(s, c, Splitting([]))
    case Replanned(c) =>
      if !At(s, c) || !s.calls[c].Splitting? || |s.calls[c].plans| != 2 || s.shards == [] then s
      else Goto(s, c, Finished).(shards := s.shards + s.calls[c].plans)
    case StatusMoves(status) => s.(status := status)
  }

  const INITIAL: System := System(Queued, [], {}, map[], {}, {}, 0)

  function Run(steps: seq<Step>): System {
    if steps == [] then INITIAL else Next(Run(steps[..|steps| - 1]), steps[|steps| - 1])
  }

  // ----- The invariant -----

  /** The keys a call still has to delete or adopt are its own, in order, and stored. */
  ghost predicate OwnPlan(s: System, c: nat)
    requires At(s, c)
  {
    var p := Pending(s.calls[c]);
    forall i :: 0 <= i < |p| ==> p[i] == Key(c, i) && p[i] in s.store
  }

  /** A shard's artifact is stored and belongs to no call in flight. */
  ghost predicate Secured(s: System, k: Key) {
    k in s.store && k.attempt in s.calls && s.calls[k.attempt].Finished?
  }

  /** The phases of a call whose plan can no longer be adopted, or already was. */
  predicate Past(p: Phase) {
    p.Unwinding? || p.Refusing? || p.Discarding? || p.Finished?
  }

  /** An artifact left behind by a reported failure belongs to an attempt that was not and will not be adopted. */
  ghost predicate Abandoned(s: System, k: Key) {
    && k in s.store && k.attempt in s.calls && Past(s.calls[k.attempt])
    && k !in Pending(s.calls[k.attempt])
    && forall j :: j in s.shards ==> j.attempt != k.attempt
  }

  /** Every stored artifact is referenced, left behind, or still held by its own call. */
  ghost predicate Accounted(s: System, k: Key) {
    k in s.shards || k in s.leaked || (k.attempt in s.calls && k in Pending(s.calls[k.attempt]))
  }

  ghost predicate Invariant(s: System) {
    && (forall c :: At(s, c) ==> OwnPlan(s, c))
    && Distinct(s.shards)
    && (forall k :: k in s.shards ==> Secured(s, k))
    && (forall k :: k in s.leaked ==> Abandoned(s, k))
    && (forall k :: k in s.store ==> Accounted(s, k) && k in s.written)
    && (s.adoptions == if s.shards == [] then 0 else 1)
  }

  lemma FreshKey(s: System, c: nat)
    requires Invariant(s) && At(s, c) && Writing(s.calls[c])
    ensures var k := Key(c, |s.calls[c].plans|); k !in s.store && k !in s.shards && k !in s.leaked
  {
    var k := Key(c, |s.calls[c].plans|);
    assert OwnPlan(s, c);
    assert k in s.shards ==> Secured(s, k);
    assert k in s.leaked ==> Abandoned(s, k);
    assert k in s.store ==> Accounted(s, k);
  }

  /** A call that changes phase without touching its pending keys disturbs nothing. */
  lemma MoveKeeps(s: System, c: nat, p: Phase)
    requires Invariant(s) && At(s, c) && Pending(p) == Pending(s.calls[c])
    requires (s.calls[c].Finished? ==> p.Finished?) && (Past(s.calls[c]) ==> Past(p))
    ensures Invariant(Goto(s, c, p))
  {
    var t := Goto(s, c, p);
    forall d | At(t, d) ensures OwnPlan(t, d) { assert OwnPlan(s, d); }
    forall k | k in t.shards ensures Secured(t, k) { assert Secured(s, k); }
    forall k | k in t.leaked ensures Abandoned(t, k) { assert Abandoned(s, k); }
    forall k | k in t.store ensures Accounted(t, k) && k in t.written { assert Accounted(s, k); }
  }

  lemma DeliverKeeps(s: System, c: nat, p: Phase)
    requires Invariant(s) && !At(s, c) && Pending(p) == []
    ensures Invariant(Goto(s, c, p))
  {
    var t := Goto(s, c, p);
    forall d | At(t, d) ensures OwnPlan(t, d) { assert d == c || OwnPlan(s, d); }
    forall k | k in t.shards ensures Secured(t, k) { assert Secured(s, k); }
    forall k | k in t.leaked ensures Abandoned(t, k) { assert Abandoned(s, k); }
    forall k | k in t.store ensures Accounted(t, k) && k in t.written { assert Accounted(s, k); }
  }

  lemma WriteKeeps(s: System, c: nat)
    requires Invariant(s) && At(s, c) && Writing(s.calls[c])
    ensures Invariant(Next(s, Write(c)))
  {
    var t, plans := Next(s, Write(c)), s.calls[c].plans;
    var key := Key(c, |plans|);
    FreshKey(s, c);
    assert OwnPlan(s, c);
    forall d | At(t, d) ensures OwnPlan(t, d) { assert OwnPlan(s, d); }
    forall k | k in t.shards ensures Secured(t, k) { assert Secured(s, k); }
    forall k | k in t.leaked ensures Abandoned(t, k) { assert Abandoned(s, k); }
    forall k | k in t.store ensures Accounted(t, k) && k in t.written {
      assert k == key || Accounted(s, k);
      assert key in Pending(t.calls[c]);
    }
  }

  lemma WriteFailsKeeps(s: System, c: nat, stored: bool)
    requires Invariant(s) && At(s, c) && Writing(s.calls[c])
    ensures Invariant(Next(s, WriteFails(c, stored)))
  {
    var t, plans := Next(s, WriteFails(c, stored)), s.calls[c].plans;
    var key := Key(c, |plans|);
    FreshKey(s, c);
    assert OwnPlan(s, c);
    forall d | At(t, d) ensures OwnPlan(t, d) { assert OwnPlan(s, d); }
    forall k | k in t.shards ensures Secured(t, k) { assert Secured(s, k); }
    forall k | k in t.leaked ensures Abandoned(t, k) {
      assert k == key || Abandoned(s, k);
      forall j | j in t.shards ensures j.attempt != k.attempt { assert Secured(s, j); }
    }
    forall k | k in t.store ensures Accounted(t, k) && k in t.written { assert k == key || Accounted(s, k); }
  }

  lemma AdoptKeeps(s: System, c: nat)
    requires Invariant(s) && At(s, c) && s.calls[c].Deciding? && s.calls[c].plans != [] && s.shards == []
    ensures Invariant(Goto(s, c, Finished).(shards := s.calls[c].plans, status := Running, adoptions := s.adoptions + 1))
  {
    var plans := s.calls[c].plans;
    var t := Goto(s, c, Finished).(shards := plans, status := Running, adoptions := s.adoptions + 1);
    assert OwnPlan(s, c);
    forall d | At(t, d) ensures OwnPlan(t, d) { assert OwnPlan(s, d); }
    forall k | k in t.leaked ensures Abandoned(t, k) { assert Abandoned(s, k); }
    forall k | k in t.store ensures Accounted(t, k) && k in t.written { assert Accounted(s, k); }
  }

  /** A call cleaning up goes on to its next phase p with one artifact less. */
  ghost predicate CleansUp(s: System, c: nat, p: Phase) {
    && At(s, c) && (s.calls[c].Unwinding? || s.calls[c].Discarding?) && s.calls[c].plans != []
    && (p.Unwinding? || p.Discarding?) && p.plans == s.calls[c].plans[..|s.calls[c].plans| - 1]
  }

  /** Shortening a plan under clean-up leaves every call with its own, stored, keys. */
  lemma OwnAfterCleanup(s: System, c: nat, p: Phase, store: set<Key>)
    requires Invariant(s) && CleansUp(s, c, p)
    requires s.store - {s.calls[c].plans[|p.plans|]} <= store
    ensures forall d :: At(Goto(s, c, p).(store := store), d) ==> OwnPlan(Goto(s, c, p).(store := store), d)
  {
    var t := Goto(s, c, p).(store := store);
    assert OwnPlan(s, c);
    forall d | At(t, d) ensures OwnPlan(t, d) { assert OwnPlan(s, d); }
  }

  /** The key cleaned up is the call's own, and no shard references it. */
  lemma CleanedKey(s: System, c: nat, p: Phase)
    requires Invariant(s) && CleansUp(s, c, p)
    ensures var gone := s.calls[c].plans[|p.plans|];
            && gone == Key(c, |p.plans|) && gone in s.store && gone !in s.shards && gone !in s.leaked
            && forall k :: k in Pending(s.calls[c]) <==> k in p.plans || k == gone
  {
    var plans := s.calls[c].plans;
    var gone := plans[|p.plans|];
    assert OwnPlan(s, c) && plans == p.plans + [gone] && gone in plans;
    assert gone in s.shards ==> Secured(s, gone);
    assert gone in s.leaked ==> Abandoned(s, gone);
  }

  lemma DropKeeps(s: System, c: nat, p: Phase)
    requires Invariant(s) && CleansUp(s, c, p)
    ensures Invariant(Goto(s, c, p).(store := s.store - {s.calls[c].plans[|p.plans|]}))
  {
    hide OwnPlan, Distinct;
    var gone := s.calls[c].plans[|p.plans|];
    var t := Goto(s, c, p).(store := s.store - {gone});
    CleanedKey(s, c, p);
    OwnAfterCleanup(s, c, p, t.store);
    forall k | k in t.shards ensures Secured(t, k) { assert Secured(s, k); }
    forall k | k in t.leaked ensures Abandoned(t, k) { assert Abandoned(s, k); }
    forall k | k in t.store ensures Accounted(t, k) && k in t.written { assert Accounted(s, k); }
  }

  lemma LeaveKeeps(s: System, c: nat, p: Phase)
    requires Invariant(s) && CleansUp(s, c, p)
    ensures Invariant(Goto(s, c, p).(leaked := s.leaked + {s.calls[c].plans[|p.plans|]}))
  {
    hide OwnPlan, Distinct;
    var stuck := s.calls[c].plans[|p.plans|];
    var t := Goto(s, c, p).(leaked := s.leaked + {stuck});
    CleanedKey(s, c, p);
    OwnAfterCleanup(s, c, p, s.store);
    LeftBehind(s, c, p);
    forall d | At(t, d) ensures OwnPlan(t, d) { OwnIgnoresLeaks(Goto(s, c, p), t.leaked, d); }
    forall k | k in t.shards ensures Secured(t, k) { assert Secured(s, k); }
    forall k | k in t.leaked ensures Abandoned(t, k) { assert k == stuck || Abandoned(s, k); }
    forall k | k in t.store ensures Accounted(t, k) && k in t.written { assert Accounted(s, k); }
  }

  lemma OwnIgnoresLeaks(s: System, leaked: set<Key>, c: nat)
    requires At(s, c) && OwnPlan(s, c)
    ensures OwnPlan(s.(leaked := leaked), c)
  {
  }

  /** An artifact that cannot be deleted belongs to no shard's attempt. */
  lemma LeftBehind(s: System, c: nat, p: Phase)
    requires Invariant(s) && CleansUp(s, c, p)
    ensures forall j :: j in s.shards ==> j.attempt != c
    ensures s.calls[c].plans[|p.plans|] !in p.plans
  {
    forall j | j in s.shards ensures j.attempt != c { assert Secured(s, j); }
    assert OwnPlan(s, c);
    var plans, n := s.calls[c].plans, |p.plans|;
    assert plans[n] == Key(c, n);
    forall i | 0 <= i < n ensures p.plans[i] != plans[n] {
      assert p.plans[i] == plans[i] == Key(c, i);
    }
  }

  lemma ReplannedKeeps(s: System, c: nat)
    requires Invariant(s) && At(s, c) && s.calls[c].Splitting? && |s.calls[c].plans| == 2 && s.shards != []
    ensures Invariant(Next(s, Replanned(c)))
  {
    var t, keys := Next(s, Replanned(c)), s.calls[c].plans;
    assert OwnPlan(s, c);
    forall k | k in s.shards ensures k.attempt != c { assert Secured(s, k); }
    TwoMore(s.shards, keys);
    forall d | At(t, d) ensures OwnPlan(t, d) { assert OwnPlan(s, d); }
    forall k | k in t.shards ensures Secured(t, k) { assert k in keys || Secured(s, k); }
    forall k | k in t.leaked ensures Abandoned(t, k) {
      assert Abandoned(s, k) && k.attempt != c;
      forall j | j in t.shards ensures j.attempt != k.attempt { assert j in s.shards || j in keys; }
    }
    forall k | k in t.store ensures Accounted(t, k) && k in t.written { assert Accounted(s, k); }
  }

  lemma TwoMore(shards: seq<Key>, keys: seq<Key>)
    requires Distinct(shards) && |keys| == 2 && keys[0] != keys[1] && keys[0] !in shards && keys[1] !in shards
    ensures Distinct(shards + keys) && forall k :: k in shards + keys <==> k in shards || k in keys
  {
    var all := shards + keys;
    forall i, j | 0 <= i < j < |all| ensures all[i] != all[j] {
      assert i < |shards| ==> all[i] in shards;
    }
  }

  /** A call only decides on a plan that is not empty. */
  ghost predicate Decisive(s: System) {
    forall c :: At(s, c) && s.calls[c].Deciding? ==> s.calls[c].plans != []
  }

  lemma NextDecides(s: System, step: Step)
    requires Decisive(s)
    ensures Decisive(Next(s, step))
  {
  }

  lemma CleanupKeeps(s: System, step: Step)
    requires Invariant(s) && (step.Delete? || step.DeleteFails? || step.CleanupDone?)
    ensures Invariant(Next(s, step))
  {
    hide Invariant;
    var c, t := step.call, Next(s, step);
    if t == s { return; }
    match step
    case Delete(_) => DropKeeps(s, c, t.calls[c]);
    case DeleteFails(_, removed) =>
      if removed { DropKeeps(s, c, t.calls[c]); } else { LeaveKeeps(s, c, t.calls[c]); }
    case CleanupDone(_) => MoveKeeps(s, c, t.calls[c]);
  }

  lemma NextKeeps(s: System, step: Step)
    requires Invariant(s) && Decisive(s)
    ensures Invariant(Next(s, step)) && Decisive(Next(s, step))
  {
    NextDecides(s, step);
    hide Invariant;
    var t := Next(s, step);
    if t == s { return; }
    match step
    case Deliver(c) => DeliverKeeps(s, c, Ready);
    case ReadStatus(c) => MoveKeeps(s, c, t.calls[c]);
    case ReadShards(c) => MoveKeeps(s, c, t.calls[c]);
    case Write(c) => WriteKeeps(s, c);
    case WriteFails(c, stored) => WriteFailsKeeps(s, c, stored);
    case PlanFails(c, _) => MoveKeeps(s, c, t.calls[c]);
    case PlanDone(c) => MoveKeeps(s, c, t.calls[c]);
    case Decide(c) =>
      if s.status.Canceled? || s.shards != [] { MoveKeeps(s, c, t.calls[c]); } else { AdoptKeeps(s, c); }
    case AdoptionFails(c) => MoveKeeps(s, c, t.calls[c]);
    case Delete(_) => CleanupKeeps(s, step);
    case DeleteFails(_, _) => CleanupKeeps(s, step);
    case CleanupDone(_) => CleanupKeeps(s, step);
    case RecordFailure(c) => MoveKeeps(s, c, Finished); StatusKeeps(Goto(s, c, Finished), t.status);
    case StartReplan(c) => DeliverKeeps(s, c, Splitting([]));
    case Replanned(c) => ReplannedKeeps(s, c);
    case StatusMoves(status) => StatusKeeps(s, status);
  }

  lemma StatusKeeps(s: System, status: JobStatus)
    requires Invariant(s)
    ensures Invariant(s.(status := status))
  {
    var t := s.(status := status);
    forall d | At(t, d) ensures OwnPlan(t, d) { assert OwnPlan(s, d); }
    forall k | k in t.shards ensures Secured(t, k) { assert Secured(s, k); }
    forall k | k in t.leaked ensures Abandoned(t, k) { assert Abandoned(s, k); }
    forall k | k in t.store ensures Accounted(t, k) && k in t.written { assert Accounted(s, k); }
  }

  // ----- Whole runs -----

  lemma {:induction false} RunKeeps(steps: seq<Step>)
    ensures Invariant(Run(steps)) && Decisive(Run(steps))
  {
    if steps != [] {
      RunKeeps(steps[..|steps| - 1]);
      NextKeeps(Run(steps[..|steps| - 1]), steps[|steps| - 1]);
    }
  }

  /** Under any interleaving at most one planning attempt is adopted. */
  lemma AdoptedAtMostOnce(steps: seq<Step>)
    ensures Run(steps).adoptions <= 1
  {
    RunKeeps(steps);
  }

  /** No step of any call ever removes an artifact that a shard references. */
  lemma ReferencedArtifactsSurvive(steps: seq<Step>, step: Step, k: Key)
    requires k in Run(steps).shards
    ensures k in Next(Run(steps), step).store && k in Next(Run(steps), step).shards
  {
    var s := Run(steps);
    RunKeeps(steps);
    NextKeeps(s, step);
    assert Secured(s, k);
    ShardsOnlyGrow(s, step);
    assert Secured(Next(s, step), k);
  }

  lemma ShardsOnlyGrow(s: System, step: Step)
    ensures s.shards <= Next(s, step).shards
  {
  }

  ghost predicate Quiescent(s: System) {
    forall c :: At(s, c) ==> s.calls[c].Finished?
  }

  /** Once every call has returned, each artifact ever written is referenced by exactly one shard,
      was deleted, or was left stored by its own write or delete while that reported a failure. */
  lemma NothingUnaccounted(steps: seq<Step>, k: Key)
    requires Quiescent(Run(steps)) && k in Run(steps).written
    ensures var s := Run(steps);
            && Distinct(s.shards)
            && (k in s.store <==> k in s.shards || k in s.leaked)
            && !(k in s.shards && k in s.leaked)
  {
    var s := Run(steps);
    RunKeeps(steps);
    assert k in s.shards ==> Secured(s, k);
    assert k in s.leaked ==> Abandoned(s, k);
    assert k in s.store ==> Accounted(s, k);
  }

  /** Without storage failures nothing is left behind. */
  lemma {:induction false} NoFailureNoLeak(steps: seq<Step>)
    requires forall i :: 0 <= i < |steps| ==> !(steps[i].DeleteFails? && !steps[i].removed) && !(steps[i].WriteFails? && steps[i].stored)
    ensures Run(steps).leaked == {}
  {
    if steps != [] {
      NoFailureNoLeak(steps[..|steps| - 1]);
    }
  }

  // ----- What a decision does -----

  /** The phases in which everything a call wrote is still in its plan. */
  predicate Holding(p: Phase) {
    p.Ready? || p.StatusRead? || p.Planning? || p.Deciding? || p.Splitting?
  }

  ghost predicate WrittenHeld(s: System, k: Key) {
    k.attempt in s.calls && (Holding(s.calls[k.attempt]) ==> k in Pending(s.calls[k.attempt]))
  }

  lemma NextHolds(s: System, step: Step)
    requires forall k :: k in s.written ==> WrittenHeld(s, k)
    ensures forall k :: k in Next(s, step).written ==> WrittenHeld(Next(s, step), k)
  {
    var t := Next(s, step);
    forall k | k in t.written ensures WrittenHeld(t, k) {
      if k in s.written {
        assert WrittenHeld(s, k);
        HeldOn(s, step, k);
      } else {
        NewlyHeld(s, step, k);
      }
    }
  }

  lemma HeldOn(s: System, step: Step, k: Key)
    requires WrittenHeld(s, k)
    ensures WrittenHeld(Next(s, step), k)
  {
    if step.Write? && At(s, step.call) && Writing(s.calls[step.call]) && k.attempt == step.call {
      var plans := s.calls[step.call].plans;
      assert Pending(Next(s, step).calls[step.call]) == plans + [Key(step.call, |plans|)];
    }
  }

  lemma NewlyHeld(s: System, step: Step, k: Key)
    requires k !in s.written && k in Next(s, step).written
    ensures WrittenHeld(Next(s, step), k)
  {
    if step.Write? {
      var plans := Next(s, step).calls[step.call].plans;
      assert plans[|plans| - 1] == k;
    }
  }

  lemma {:induction false} RunHolds(steps: seq<Step>)
    ensures forall k :: k in Run(steps).written ==> WrittenHeld(Run(steps), k)
  {
    if steps != [] {
      hide Next;
      RunHolds(steps[..|steps| - 1]);
      NextHolds(Run(steps[..|steps| - 1]), steps[|steps| - 1]);
    }
  }

  lemma RunSnoc(steps: seq<Step>, step: Step)
    ensures Run(steps + [step]) == Next(Run(steps), step)
  {
    assert (steps + [step])[..|steps|] == steps;
  }

  /** A call deciding on a cancelled job, or on one that has shards, changes nothing but its own next
      phase, in which it discards. On any other job it adopts: the shards are exactly the artifacts
      the call wrote, all stored, the job is RUNNING and the call is finished. */
  lemma DecisionMeans(steps: seq<Step>, c: nat)
    requires At(Run(steps), c) && Run(steps).calls[c].Deciding?
    ensures var s, t := Run(steps), Run(steps + [Decide(c)]);
            if s.status == Canceled || s.shards != [] then
              && t.status == s.status && t.shards == s.shards && t.adoptions == s.adoptions && t.store == s.store && t.written == s.written
              && t.calls == s.calls[c := Discarding(s.calls[c].plans)]
            else
              && Distinct(t.shards) && t.shards != [] && (forall k :: k in t.shards <==> k in s.written && k.attempt == c)
              && (forall k :: k in t.shards ==> k in t.store) && t.store == s.store
              && t.status == Running && t.adoptions == 1 && t.calls == s.calls[c := Finished]
  {
    var s := Run(steps);
    RunSnoc(steps, Decide(c));
    RunKeeps(steps);
    RunHolds(steps);
    assert OwnPlan(s, c);
    var t := Next(s, Decide(c));
    if s.status != Canceled && s.shards == [] {
      forall k ensures k in t.shards <==> k in s.written && k.attempt == c {
        assert k in s.written ==> WrittenHeld(s, k);
      }
    }
  }

  /** From then on exactly one plan is adopted, whatever follows. */
  lemma {:induction false} DecisionAdopts(steps: seq<Step>, c: nat, later: seq<Step>)
    requires At(Run(steps), c) && Run(steps).calls[c].Deciding? && Run(steps).status != Canceled
    ensures Run(steps + [Decide(c)] + later).adoptions == 1
  {
    ShardsStay(steps, c, later);
    hide Run;
    RunKeeps(steps + [Decide(c)] + later);
  }

  lemma {:induction false} ShardsStay(steps: seq<Step>, c: nat, later: seq<Step>)
    requires At(Run(steps), c) && Run(steps).calls[c].Deciding? && Run(steps).status != Canceled
    ensures Run(steps + [Decide(c)] + later).shards != []
  {
    hide Next, Run;
    var base := steps + [Decide(c)];
    if later == [] {
      assert base + later == base;
      DecisionMeans(steps, c);
    } else {
      var init, last := later[..|later| - 1], later[|later| - 1];
      assert base + later == base + init + [last];
      RunSnoc(base + init, last);
      ShardsStay(steps, c, init);
      ShardsOnlyGrow(Run(base + init), last);
    }
  }

  // ----- One call from start to end -----

  function Writes(n: nat): seq<Step> {
    if n == 0 then [] else Writes(n - 1) + [Write(0)]
  }

  function Deletes(n: nat): seq<Step> {
    if n == 0 then [] else Deletes(n - 1) + [Delete(0)]
  }

  function Keys(n: nat): (r: seq<Key>)
    ensures |r| == n && forall i :: 0 <= i < n ==> r[i] == Key(0, i)
  {
    seq(n, i requires 0 <= i < n => Key(0, i))
  }

  const BEGIN: seq<Step> := [Deliver(0)] + [ReadStatus(0)] + [ReadShards(0)]

  lemma {:induction false} RunsOn(steps: seq<Step>, more: seq<Step>, last: Step)
    ensures Run(steps + (more + [last])) == Next(Run(steps + more), last)
  {
    assert steps + (more + [last]) == (steps + more) + [last];
    RunSnoc(steps + more, last);
  }

  lemma Begun()
    ensures Run(BEGIN) == INITIAL.(calls := map[0 := Planning([])])
  {
    RunSnoc([], Deliver(0));
    RunSnoc([Deliver(0)], ReadStatus(0));
    RunSnoc([Deliver(0)] + [ReadStatus(0)], ReadShards(0));
    assert [] + [Deliver(0)] == [Deliver(0)];
  }

  lemma OneWritten(s: System, n: nat)
    requires s.calls == map[0 := Planning(Keys(n))] && s.store == Elements(Keys(n)) && s.written == s.store
    ensures var key := Key(0, n);
            Next(s, Write(0)) == s.(calls := map[0 := Planning(Keys(n + 1))], store := Elements(Keys(n + 1)), written := Elements(Keys(n + 1)))
  {
    assert Keys(n + 1) == Keys(n) + [Key(0, n)];
    assert Elements(Keys(n + 1)) == Elements(Keys(n)) + {Key(0, n)};
  }

  ghost predicate HasWritten(s: System, n: nat) {
    && s.status == Queued && s.shards == [] && s.calls == map[0 := Planning(Keys(n))]
    && s.store == Elements(Keys(n)) && s.written == s.store && s.adoptions == 0
  }

  lemma {:induction false} AfterWrites(n: nat)
    ensures HasWritten(Run(BEGIN + Writes(n)), n)
  {
    hide Run, Next, Keys;
    if n == 0 {
      Begun();
      assert BEGIN + Writes(0) == BEGIN && Keys(0) == [];
      assert Elements<Key>([]) == {};
    } else {
      AfterWrites(n - 1);
      RunsOn(BEGIN, Writes(n - 1), Write(0));
      OneWritten(Run(BEGIN + Writes(n - 1)), n - 1);
    }
  }

  lemma Adopts(s: System, n: nat)
    requires HasWritten(s, n) && n >= 1
    ensures Next(Next(s, PlanDone(0)), Decide(0)) ==
            s.(calls := map[0 := Finished], shards := Keys(n), status := Running, adoptions := 1)
  {
    assert Keys(n) != [];
  }

  /** A lone call that plans n >= 1 shards has them all adopted, and the job runs. */
  lemma LoneCallAdopts(n: nat)
    requires n >= 1
    ensures var s := Run(BEGIN + Writes(n) + [PlanDone(0)] + [Decide(0)]);
            s.shards == Keys(n) && s.status == Running && s.store == Elements(Keys(n)) && s.calls == map[0 := Finished]
  {
    hide Run, Next, Keys;
    AfterWrites(n);
    RunSnoc(BEGIN + Writes(n), PlanDone(0));
    RunSnoc(BEGIN + Writes(n) + [PlanDone(0)], Decide(0));
    Adopts(Run(BEGIN + Writes(n)), n);
  }

  lemma {:induction false} AfterDeletes(n: nat, m: nat)
    requires m <= n
    ensures var s := Run(BEGIN + Writes(n) + [PlanFails(0, true)] + Deletes(m));
            && s.status == Queued && s.shards == [] && s.calls == map[0 := Unwinding(Keys(n - m), true)]
            && s.store == Elements(Keys(n - m))
  {
    hide Run, Next;
    var failed := BEGIN + Writes(n) + [PlanFails(0, true)];
    if m == 0 {
      AfterWrites(n);
      RunSnoc(BEGIN + Writes(n), PlanFails(0, true));
      assert failed + Deletes(0) == failed;
      PlanningStops(Run(BEGIN + Writes(n)), Keys(n));
    } else {
      AfterDeletes(n, m - 1);
      RunsOn(failed, Deletes(m - 1), Delete(0));
      OneDeleted(Run(failed + Deletes(m - 1)), n - m);
    }
  }

  lemma PlanningStops(s: System, plans: seq<Key>)
    requires s.calls == map[0 := Planning(plans)]
    ensures Next(s, PlanFails(0, true)) == s.(calls := map[0 := Unwinding(plans, true)])
  {
  }

  lemma OneDeleted(s: System, n: nat)
    requires s.calls == map[0 := Unwinding(Keys(n + 1), true)] && s.store == Elements(Keys(n + 1))
    ensures Next(s, Delete(0)) == s.(calls := map[0 := Unwinding(Keys(n), true)], store := Elements(Keys(n)))
  {
    assert Keys(n + 1) == Keys(n) + [Key(0, n)] && Keys(n + 1)[..n] == Keys(n);
    assert Elements(Keys(n + 1)) - {Key(0, n)} == Elements(Keys(n));
  }

  /** A lone call whose planning fails deletes what it wrote and leaves the job FAILED, without shards. */
  lemma LoneCallFails(n: nat)
    ensures var s := Run(BEGIN + Writes(n) + [PlanFails(0, true)] + Deletes(n) + [CleanupDone(0)] + [RecordFailure(0)]);
            s.shards == [] && s.status == Failed && s.store == {} && s.calls == map[0 := Finished]
  {
    hide Run, Next;
    AfterDeletes(n, n);
    var cleaned := BEGIN + Writes(n) + [PlanFails(0, true)] + Deletes(n);
    RunSnoc(cleaned, CleanupDone(0));
    RunSnoc(cleaned + [CleanupDone(0)], RecordFailure(0));
    assert Keys(0) == [] && Elements<Key>([]) == {};
    Records(Run(cleaned));
  }

  lemma Records(s: System)
    requires s.calls == map[0 := Unwinding([], true)] && s.status == Queued && s.shards == []
    ensures Next(Next(s, CleanupDone(0)), RecordFailure(0)) == s.(calls := map[0 := Finished], status := Failed)
  {
  }

  /** What reading and recording depend on: a cancelled job is not planned, one with shards is not planned
      again, and a failure is recorded on neither. */
  lemma GuardsMean(s: System, c: nat)
    requires At(s, c)
    ensures s.calls[c] == Ready ==>
              Next(s, ReadStatus(c)) == s.(calls := s.calls[c := if s.status == Canceled then Finished else StatusRead])
    ensures s.calls[c] == StatusRead ==>
              Next(s, ReadShards(c)) == s.(calls := s.calls[c := if |s.shards| > 0 then Finished else Planning([])])
    ensures s.calls[c] == Refusing ==>
              Next(s, RecordFailure(c)) ==
              s.(calls := s.calls[c := Finished], status := if s.status != Canceled && |s.shards| == 0 then Failed else s.status)
  {
  }
}
