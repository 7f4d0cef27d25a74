// How an attempt at a competence job ends: which step moves a row to which status, what a worker
// raises, and the end of a worker left alone for every result of its fit.

module CompetenceOutcomes {
  import opened Common
  import opened CompetenceContract
  import opened CompetenceFit
  import opened CompetenceChains
  import opened CompetenceJobs
  import opened CompetenceScenarios

  // ----- One step, seen from one row -----

  /** A worker of this job is about to take its next step in a stage of this kind. */
  ghost predicate Moves(s: System, step: Step, id: nat, stage: Stage) {
    step.Advance? && step.worker in s.workers && s.workers[step.worker] == Worker(id, stage)
  }

  ghost predicate MovesFinishing(s: System, step: Step, id: nat) {
    step.Advance? && step.worker in s.workers && s.workers[step.worker].job == id && s.workers[step.worker].stage.Finishing?
  }

  /** The job is handed to a worker that was not there before. */
  ghost predicate Handed(s: System, step: Step, id: nat) {
    step.Deliver? && step.id == id && step.worker !in s.workers
  }

  /** The row may be claimed under this task: it waits or has failed, or runs under the same task or none. */
  ghost predicate Claimable(j: Job, task: string) {
    j.status == Queued || j.status == Failed || (j.status == Running && (j.task == "" || j.task == task))
  }

  /** The new row after any one step: claimed, finished, given a problem, recovered, cancelled,
      an artifact recorded, or as it was. */
  ghost predicate RowAfter(s: System, step: Step, id: nat, j: Job, k: Job) {
    if step == Cancel(id) then k == j.(status := Canceled)
    else if step.Sweep? && id in step.stale && j.status == Running then k == j.(status := Queued, task := "")
    else if Handed(s, step, id) && Claimable(j, step.task) then k == j.(status := Running, task := step.task, attempts := j.attempts + 1)
    else if Moves(s, step, id, Raised(Failed)) && j.status != Canceled then k == j.(status := Failed)
    else if Moves(s, step, id, Raised(Refused)) && j.status != Canceled then k == j.(status := Refused)
    else if MovesFinishing(s, step, id) && j.status == Running then
      && k.status == Succeeded && k.scorer == Some(s.workers[step.worker].stage.fitted.scorer)
      && k.binding == j.binding && k.task == j.task && k.attempts == j.attempts
    else k.status == j.status && k.scorer == j.scorer && k.binding == j.binding && k.task == j.task && k.attempts == j.attempts
  }

  lemma StepMeans(h: Hashing, s: System, step: Step, id: nat)
    requires WellHashed(h) && Invariant(h, s) && id in s.jobs
    ensures id in Next(h, s, step).jobs && RowAfter(s, step, id, s.jobs[id], Next(h, s, step).jobs[id])
  {
    hide FitOf, Verdict, Candidate, Admitted, Bound, ArtifactsOf, JobOk, FitOk, AdvanceStep, FitStep, KeyOf;
    match step
    case Advance(w) =>
      if w in s.workers && s.workers[w].job in s.jobs { AdvanceMeans(h, s, w, id); }
    case Fits(w, candidate) =>
      if AtWork(s, w) { FitTouchesNoJob(h, s, w, candidate); }
    case _ =>
  }

  lemma AdvanceMeans(h: Hashing, s: System, w: nat, id: nat)
    requires Invariant(h, s) && w in s.workers && s.workers[w].job in s.jobs && id in s.jobs
    ensures var t := AdvanceStep(h, s, w); id in t.jobs && RowAfter(s, Advance(w), id, s.jobs[id], t.jobs[id])
  {
    hide ArtifactsOf, KeyOf, JobOk, FitOk;
    assert WorkerOk(h, s, s.workers[w]);
  }

  /** A worker raises a refusal only at the fit, and exactly if the row's binding is broken, no
      succeeded job is the one named, or the fit itself refuses; any other problem is a failure. */
  lemma RefusedOnlyByFit(h: Hashing, s: System, step: Step, w: nat)
    requires WellHashed(h) && Invariant(h, s) && w in s.workers && !s.workers[w].stage.Raised?
    ensures var id := s.workers[w].job;
            var t := Next(h, s, step);
            && w in t.workers && id in s.jobs
            && (t.workers[w].stage == Raised(Refused) <==>
                  step.Fits? && step.worker == w && s.workers[w].stage == Fitting && Refuses(h, s, id, step.candidate))
            && (t.workers[w].stage.Raised? && t.workers[w].stage != Raised(Refused) ==>
                  t.workers[w].stage == Raised(Failed)
                  && (step == Fail(w)
                      || (step == Advance(w)
                          && (s.workers[w].stage.Writing? || s.workers[w].stage.Reading? || s.workers[w].stage.Recording?))))
  {
    hide FitOf, Verdict, Candidate, Admitted, Bound, ArtifactsOf, JobOk, FitOk, KeyOf, FitStep, AdvanceStep, AfterFit;
    var id := s.workers[w].job;
    assert WorkerOk(h, s, s.workers[w]);
    match step
    case Fits(w', candidate) =>
      if AtWork(s, w') && s.workers[w'].stage == Fitting { FitRaises(h, s, w', candidate); }
    case Advance(w') =>
      if w' in s.workers && s.workers[w'].job in s.jobs { AdvanceRaises(h, s, w'); }
    case _ =>
  }

  /** The fit moves its own worker alone: to publishing, to a refusal, or not at all. */
  lemma FitRaises(h: Hashing, s: System, w: nat, candidate: Option<nat>)
    requires WellHashed(h) && w in s.workers && s.workers[w].job in s.jobs && s.workers[w].stage == Fitting
    ensures var t := FitStep(h, s, w, candidate);
            && w in t.workers && t.workers == s.workers[w := Worker(s.workers[w].job, t.workers[w].stage)]
            && (t.workers[w].stage.Raised? ==> t.workers[w].stage == Raised(Refused))
            && (t.workers[w].stage.Raised? <==> Refuses(h, s, s.workers[w].job, candidate))
  {
    hide FitOf, Bound, AfterFit, Candidate;
    var id := s.workers[w].job;
    var b := s.jobs[id].binding;
    if Bound(h, b) {
      if b.request.previous.None? {
        FitEnds(s, w, FitOf(h, b.request, b.digest, None, None));
      } else if candidate.Some? && Candidate(h, s, id, candidate.value) {
        CandidateHasScorer(h, s, id, candidate.value);
        var other := s.jobs[candidate.value];
        FitEnds(s, w, FitOf(h, b.request, b.digest, other.scorer, Some(other.binding.request)));
      }
    }
  }

  lemma CandidateHasScorer(h: Hashing, s: System, id: nat, k: nat)
    requires WellHashed(h) && id in s.jobs && s.jobs[id].binding.request.previous.Some? && Candidate(h, s, id, k)
    ensures k in s.jobs && s.jobs[k].scorer.Some? && PriorScorer(h, s.jobs[k].scorer)
  {
    hide ScorerValid, Names;
    ValidScorerIsPositive(h, s.jobs[k].scorer.value);
  }

  lemma FitEnds(s: System, w: nat, r: Result<Fitted, FitError>)
    requires w in s.workers && s.workers[w].job in s.jobs
    ensures var t := AfterFit(s, w, r);
            && w in t.workers && t.workers == s.workers[w := Worker(s.workers[w].job, t.workers[w].stage)]
            && (t.workers[w].stage.Raised? <==> r.Err?) && (r.Err? ==> t.workers[w].stage == Raised(Refused))
  {
  }

  lemma AdvanceRaises(h: Hashing, s: System, w: nat)
    requires w in s.workers && s.workers[w].job in s.jobs
    ensures var t := AdvanceStep(h, s, w);
            && w in t.workers && t.workers == s.workers[w := Worker(s.workers[w].job, t.workers[w].stage)]
            && (t.workers[w].stage.Raised? ==>
                  t.workers[w].stage == Raised(Failed)
                  && (s.workers[w].stage.Writing? || s.workers[w].stage.Reading? || s.workers[w].stage.Recording?))
  {
    hide ArtifactsOf, KeyOf;
  }

  /** A delivery starts a fit exactly if the row is not final, even when another worker is at it. */
  lemma DeliveryStarts(h: Hashing, s: System, w: nat, id: nat, task: string)
    requires WellHashed(h) && w !in s.workers && id in s.jobs
    ensures var t := Next(h, s, Deliver(w, id, task));
            t.workers == s.workers[w := Worker(id, if s.jobs[id].status == Queued || s.jobs[id].status == Running || s.jobs[id].status == Failed
                                                  then Fitting else Done)]
  {
  }

  ghost predicate Refuses(h: Hashing, s: System, id: nat, candidate: Option<nat>)
    requires WellHashed(h) && id in s.jobs
  {
    var b := s.jobs[id].binding;
    || !Bound(h, b)
    || (b.request.previous.None? && FitOf(h, b.request, b.digest, None, None).Err?)
    || (b.request.previous.Some? && candidate.None? && forall k :: !Candidate(h, s, id, k))
    || (b.request.previous.Some? && candidate.Some? && Candidate(h, s, id, candidate.value)
        && FitOf(h, b.request, b.digest, s.jobs[candidate.value].scorer, Some(s.jobs[candidate.value].binding.request)).Err?)
  }

  // ----- What is published can be stored -----

  ghost predicate WorkerSized(h: Hashing, limit: nat, w: Worker) {
    w.stage.Reading? ==> 0 < h.size(PayloadOf(w.stage.fitted, w.stage.kind)) <= limit
  }

  ghost predicate Sized(h: Hashing, s: System) {
    && (forall w {:trigger s.workers[w]} :: w in s.workers ==> WorkerSized(h, s.limit, s.workers[w]))
    && forall key, p :: (key, p) in s.published ==> key.digest == Digest(h, p) && 0 < h.size(p) <= s.limit
  }

  lemma NextSized(h: Hashing, s: System, step: Step)
    requires WellHashed(h) && Sized(h, s)
    ensures Sized(h, Next(h, s, step)) && Next(h, s, step).limit == s.limit
  {
    hide FitOf, Verdict, Known, AdvanceStep, FitStep, SubmitStep, DeliverStep, Digest;
    match step
    case Advance(w) =>
      if w in s.workers && s.workers[w].job in s.jobs { AdvanceSized(h, s, w); }
    case Fits(w, candidate) =>
      if AtWork(s, w) && s.workers[w].stage == Fitting { FitSized(h, s, w, candidate); }
    case Submit(id, q, kind) => SubmitSized(h, s, id, q, kind);
    case Deliver(w, id, task) =>
      if w !in s.workers && id in s.jobs { DeliverSized(h, s, w, id, task); }
    case _ =>
  }

  lemma AdvanceSized(h: Hashing, s: System, w: nat)
    requires Sized(h, s) && w in s.workers && s.workers[w].job in s.jobs
    ensures Sized(h, AdvanceStep(h, s, w)) && AdvanceStep(h, s, w).limit == s.limit
  {
    hide ArtifactsOf, Digest;
    assert WorkerSized(h, s.limit, s.workers[w]);
  }

  lemma FitSized(h: Hashing, s: System, w: nat, candidate: Option<nat>)
    requires WellHashed(h) && Sized(h, s) && w in s.workers && s.workers[w].job in s.jobs
    ensures Sized(h, FitStep(h, s, w, candidate)) && FitStep(h, s, w, candidate).limit == s.limit
  {
    hide FitOf, Bound, Candidate, Digest;
  }

  lemma SubmitSized(h: Hashing, s: System, id: nat, q: Request, kind: Kind)
    requires Sized(h, s)
    ensures Sized(h, SubmitStep(h, s, id, q, kind)) && SubmitStep(h, s, id, q, kind).limit == s.limit
  {
  }

  lemma DeliverSized(h: Hashing, s: System, w: nat, id: nat, task: string)
    requires Sized(h, s) && id in s.jobs
    ensures Sized(h, DeliverStep(s, w, id, task)) && DeliverStep(s, w, id, task).limit == s.limit
  {
  }

  /** In every reachable state, whatever a worker has put and read back lies under its own digest,
      is not empty, and is within the limit. */
  lemma {:induction false} PublishedIsSized(h: Hashing, limit: nat, steps: seq<Step>)
    requires WellHashed(h)
    ensures Sized(h, Run(h, Empty(limit), steps)) && Run(h, Empty(limit), steps).limit == limit
  {
    hide Next, Sized;
    if steps == [] {
      EmptySized(h, limit);
    } else {
      var n := |steps| - 1;
      PublishedIsSized(h, limit, steps[..n]);
      NextSized(h, Run(h, Empty(limit), steps[..n]), steps[n]);
    }
  }

  lemma EmptySized(h: Hashing, limit: nat)
    ensures Sized(h, Empty(limit))
  {
  }

  /** A succeeded row's two artifacts, spelled out: each bound, under the digest its scorer gives it, to
      the object key of its kind in the row's tenant, project and candidate, where an object of that
      digest, not empty and within the limit, was put and read back. */
  ghost predicate HoldsArtifacts(h: Hashing, s: System, j: Job, priorPack: Payload, model: Payload) {
    j.scorer.Some? &&
    var sc, b := j.scorer.value, j.binding;
    var pack := Key(b.tenant, b.project, b.request.scope.candidate, PriorPack, sc.priorPack.payloadDigest);
    var weights := Key(b.tenant, b.project, b.request.scope.candidate, ScorerModel, sc.model.payloadDigest);
    && b.tenant == b.request.scope.tenant && b.project == b.request.scope.project
    && j.artifacts == map[pack.digest := pack][weights.digest := weights]
    && (pack, priorPack) in s.published && (weights, model) in s.published
    && pack.digest == Digest(h, priorPack) && weights.digest == Digest(h, model)
    && 0 < h.size(priorPack) == sc.priorPack.byteLength <= s.limit
    && 0 < h.size(model) == sc.model.byteLength <= s.limit
  }

  lemma SucceededHolds(h: Hashing, limit: nat, steps: seq<Step>, id: nat)
    requires WellHashed(h)
    requires var s := Run(h, Empty(limit), steps); CollisionFree(h, s.hashed) && id in s.jobs && s.jobs[id].status == Succeeded
    ensures var s := Run(h, Empty(limit), steps);
            exists priorPack, model :: HoldsArtifacts(h, s, s.jobs[id], priorPack, model)
  {
    hide Run, Sized, Learned, Admitted, Digest, CollisionFree;
    var s := Run(h, Empty(limit), steps);
    SucceededIsFitted(h, limit, steps, id);
    PublishedIsSized(h, limit, steps);
    var links: seq<Link> :| Delivered(h, s, s.jobs[id], links);
    var f := Last(links).fitted;
    LastDescribes(h, links);
    SizedPair(h, s, KeyOf(h, s.jobs[id].binding, f, PriorPack), f.priorPack);
    SizedPair(h, s, KeyOf(h, s.jobs[id].binding, f, ScorerModel), f.model);
    hide Chain;
    assert HoldsArtifacts(h, s, s.jobs[id], f.priorPack, f.model);
  }

  lemma SizedPair(h: Hashing, s: System, key: Key, p: Payload)
    requires Sized(h, s) && (key, p) in s.published
    ensures key.digest == Digest(h, p) && 0 < h.size(p) <= s.limit
  {
  }

  lemma LastDescribes(h: Hashing, links: seq<Link>)
    requires Chain(h, links)
    ensures var f := Last(links).fitted;
            && f.scorer.priorPack == Describe(h, f.priorPack, PriorPack, PRIOR_MEDIA)
            && f.scorer.model == Describe(h, f.model, ScorerModel, SCORER_MEDIA)
  {
    hide FitOf, PriorScorer;
    var l := Last(links);
    if |links| == 1 {
      assert PriorScorer(h, None) by { NonePrior(h, l); }
      FittedIsPublishable(h, l.request, l.digest, None, None, l.fitted);
    } else {
      var k := links[|links| - 2];
      FittedIsPublishable(h, l.request, l.digest, Some(k.fitted.scorer), Some(k.request), l.fitted);
    }
  }

  lemma NonePrior(h: Hashing, l: Link)
    requires Opens(h, l)
    ensures PriorScorer(h, None)
  {
    hide FitOf;
  }

  // ----- One job for each operation -----

  ghost predicate OneJobEach(s: System) {
    forall id, k :: id in s.jobs && k in s.jobs && id != k ==>
      s.jobs[id].binding.tenant != s.jobs[k].binding.tenant
      || s.jobs[id].binding.request.operationId != s.jobs[k].binding.request.operationId
  }

  /** However submissions, retries and recoveries interleave, a tenant never has two jobs under one
      operation id. */
  lemma {:induction false} OneJobPerOperation(h: Hashing, limit: nat, steps: seq<Step>)
    requires WellHashed(h)
    ensures OneJobEach(Run(h, Empty(limit), steps))
  {
    hide Next;
    if steps != [] {
      var n := |steps| - 1;
      OneJobPerOperation(h, limit, steps[..n]);
      StepKeepsOne(h, Run(h, Empty(limit), steps[..n]), steps[n]);
    }
  }

  /** No step rebinds or drops a job, and only a submission under an unused id and operation adds one. */
  lemma BindingsStay(h: Hashing, s: System, step: Step)
    requires WellHashed(h)
    ensures var t := Next(h, s, step);
            && (forall id :: id in s.jobs ==> id in t.jobs && t.jobs[id].binding == s.jobs[id].binding)
            && (forall id :: id in t.jobs && id !in s.jobs ==>
                  && step.Submit? && step.id == id
                  && t.jobs[id].binding.tenant == step.request.scope.tenant && t.jobs[id].binding.request == step.request
                  && !Known(s, step.request.scope.tenant, step.request.operationId))
  {
    hide FitOf, Verdict, Known, AdvanceStep, FitStep, DeliverStep, Recovered;
    match step
    case Advance(w) =>
      if w in s.workers && s.workers[w].job in s.jobs { AdvanceBinds(h, s, w); }
    case Fits(w, candidate) =>
      if AtWork(s, w) { FitTouchesNoJob(h, s, w, candidate); }
    case Deliver(w, id, task) =>
      if w !in s.workers && id in s.jobs { DeliverBinds(s, w, id, task); }
    case Sweep(stale) => RecoveredBinds();
    case _ =>
  }

  lemma AdvanceBinds(h: Hashing, s: System, w: nat)
    requires w in s.workers && s.workers[w].job in s.jobs
    ensures var t := AdvanceStep(h, s, w);
            t.jobs.Keys == s.jobs.Keys && forall id :: id in s.jobs ==> t.jobs[id].binding == s.jobs[id].binding
  {
    hide ArtifactsOf, KeyOf, Digest, PayloadOf, DescriptorOf, Recorded, Finished, Troubled;
    RowsBind();
  }

  lemma RowsBind()
    ensures forall j, scorer, artifacts {:trigger Finished(j, scorer, artifacts)} :: Finished(j, scorer, artifacts).binding == j.binding
    ensures forall j, status {:trigger Troubled(j, status)} :: Troubled(j, status).binding == j.binding
    ensures forall j, id, key {:trigger Recorded(j, id, key)} :: Recorded(j, id, key).Some? ==> Recorded(j, id, key).value.binding == j.binding
  {
  }

  lemma DeliverBinds(s: System, w: nat, id: nat, task: string)
    requires id in s.jobs
    ensures var t := DeliverStep(s, w, id, task);
            t.jobs.Keys == s.jobs.Keys && forall k :: k in s.jobs ==> t.jobs[k].binding == s.jobs[k].binding
  {
  }

  lemma RecoveredBinds()
    ensures forall j :: Recovered(j).binding == j.binding
  {
  }

  lemma StepKeepsOne(h: Hashing, s: System, step: Step)
    requires WellHashed(h) && OneJobEach(s)
    ensures OneJobEach(Next(h, s, step))
  {
    hide Next;
    BindingsStay(h, s, step);
    var t := Next(h, s, step);
    forall id, k | id in t.jobs && k in t.jobs && id != k
      ensures t.jobs[id].binding.tenant != t.jobs[k].binding.tenant
              || t.jobs[id].binding.request.operationId != t.jobs[k].binding.request.operationId
    {
      assert id in s.jobs || k in s.jobs;
    }
  }

  // ----- A worker left alone -----

  function Ending(w: nat, candidate: Option<nat>): seq<Step> {
    [Fits(w, candidate)] + [Advance(w)]
  }

  lemma EndingRuns(h: Hashing, s: System, first: Step, second: Step)
    requires WellHashed(h)
    ensures Run(h, s, [first] + [second]) == Next(h, Next(h, s, first), second)
  {
    hide Next;
    RunJoin(h, s, [first], [second]);
    RunOne(h, s, first);
    RunOne(h, Next(h, s, first), second);
  }

  /** A running job whose fit refuses ends refused, with nothing stored. */
  lemma LoneWorkerRefuses(h: Hashing, s: System, w: nat, candidate: Option<nat>, scorer: Option<Scorer>, earlier: Option<Request>)
    requires WellHashed(h) && AtWork(s, w) && s.workers[w].stage == Fitting && candidate != Some(s.workers[w].job)
    requires PriorScorer(h, scorer)
    requires var j := s.jobs[s.workers[w].job];
             && j.status == Running && Bound(h, j.binding) && Start(h, s, j.binding.request, candidate, scorer, earlier)
             && FitOf(h, j.binding.request, j.binding.digest, scorer, earlier).Err?
    ensures var id := s.workers[w].job;
            Run(h, s, Ending(w, candidate)) ==
            s.(jobs := s.jobs[id := s.jobs[id].(status := Refused)], workers := s.workers[w := Worker(id, Done)])
  {
    hide FitOf, ScorerValid, Run;
    EndingRuns(h, s, Fits(w, candidate), Advance(w));
    var t := Next(h, s, Fits(w, candidate));
    assert t == Goto(s, w, Raised(Refused));
  }

  /** A refit that names no succeeded job of its own tenant and project ends refused. */
  lemma UnknownPreviousRefused(h: Hashing, s: System, w: nat)
    requires WellHashed(h) && AtWork(s, w) && s.workers[w].stage == Fitting
    requires var j := s.jobs[s.workers[w].job];
             && j.status == Running && Bound(h, j.binding) && j.binding.request.previous.Some?
    requires var id := s.workers[w].job;
             var b := s.jobs[id].binding;
             forall k :: k in s.jobs && k != id && s.jobs[k].status == Succeeded && s.jobs[k].scorer.Some?
                         && s.jobs[k].binding.tenant == b.tenant && s.jobs[k].binding.project == b.project
                         ==> !Names(b.request.previous.value, s.jobs[k].scorer.value)
    ensures var id := s.workers[w].job;
            Run(h, s, Ending(w, None)) ==
            s.(jobs := s.jobs[id := s.jobs[id].(status := Refused)], workers := s.workers[w := Worker(id, Done)])
  {
    hide FitOf, ScorerValid, Names, Run;
    EndingRuns(h, s, Fits(w, None), Advance(w));
    var t := Next(h, s, Fits(w, None));
    assert t == Goto(s, w, Raised(Refused));
  }

  /** A worker whose storage fails, whatever it was doing, leaves its job failed. */
  lemma StorageErrorFails(h: Hashing, s: System, w: nat)
    requires WellHashed(h) && AtWork(s, w) && s.jobs[s.workers[w].job].status != Canceled
    ensures var id := s.workers[w].job;
            Run(h, s, [Fail(w)] + [Advance(w)]) ==
            s.(jobs := s.jobs[id := s.jobs[id].(status := Failed)], workers := s.workers[w := Worker(id, Done)])
  {
    hide Run;
    EndingRuns(h, s, Fail(w), Advance(w));
  }

  /** A payload that is empty or over the limit is not put, and the job fails. */
  lemma UnstorableFails(h: Hashing, s: System, w: nat, f: Fitted, kind: ArtifactKind)
    requires WellHashed(h) && w in s.workers && s.workers[w].stage == Writing(f, kind) && s.workers[w].job in s.jobs
    requires s.jobs[s.workers[w].job].status != Canceled
    requires h.size(PayloadOf(f, kind)) == 0 || s.limit < h.size(PayloadOf(f, kind))
    ensures var id := s.workers[w].job;
            Run(h, s, [Advance(w)] + [Advance(w)]) ==
            s.(jobs := s.jobs[id := s.jobs[id].(status := Failed)], workers := s.workers[w := Worker(id, Done)])
  {
    hide Run, KeyOf;
    EndingRuns(h, s, Advance(w), Advance(w));
  }

  function Refusal(id: nat, q: Request, kind: Kind, candidate: Option<nat>): seq<Step> {
    [Submit(id, q, kind)] + [Deliver(id, id, "worker")] + Ending(id, candidate)
  }

  /** An admitted request whose fit refuses becomes a refused job that stores no scorer and no artifact. */
  lemma JobRefused(h: Hashing, s: System, id: nat, q: Request, kind: Kind, candidate: Option<nat>,
                   scorer: Option<Scorer>, earlier: Option<Request>)
    requires WellHashed(h) && id !in s.jobs && id !in s.workers && PriorScorer(h, scorer)
    requires Verdict(q, kind).None? && !Known(s, q.scope.tenant, q.operationId)
    requires Start(h, s, q, candidate, scorer, earlier) && candidate != Some(id)
    requires FitOf(h, q, Digest(h, RequestValue(q)), scorer, earlier).Err?
    ensures var t := Run(h, s, Refusal(id, q, kind, candidate));
            && id in t.jobs && t.jobs == s.jobs[id := t.jobs[id]] && t.objects == s.objects
            && t.jobs[id].status == Refused && t.jobs[id].scorer == None && t.jobs[id].artifacts == map[]
            && t.jobs[id].binding == Binding(kind, q, Digest(h, RequestValue(q)), q.scope.tenant, q.scope.project)
            && t.workers == s.workers[id := Worker(id, Done)]
  {
    hide FitOf, Verdict, Run, Next, Known, Admitted, Ending, ScorerValid, Bound;
    Accepted(h, s, id, q, kind);
    VerdictMeansAdmitted(q, kind);
    AdmittedHeader(q, kind);
    var submitted := Next(h, s, Submit(id, q, kind));
    var ready := Next(h, submitted, Deliver(id, id, "worker"));
    StartStays(h, s, ready, id, q, candidate, scorer, earlier);
    NothingStored(h, s, id, q, kind);
    AdmittedIsBound(h, q, kind, ready.jobs[id].binding);
    hide Start;
    LoneWorkerRefuses(h, ready, id, candidate, scorer, earlier);
    RunOne(h, s, Submit(id, q, kind));
    RunOne(h, submitted, Deliver(id, id, "worker"));
    RunJoin(h, s, [Submit(id, q, kind)], [Deliver(id, id, "worker")]);
    RunJoin(h, s, [Submit(id, q, kind)] + [Deliver(id, id, "worker")], Ending(id, candidate));
  }

  lemma NothingStored(h: Hashing, s: System, id: nat, q: Request, kind: Kind)
    requires WellHashed(h) && id !in s.jobs && id !in s.workers
    requires Verdict(q, kind).None? && !Known(s, q.scope.tenant, q.operationId)
    ensures var t := Next(h, Next(h, s, Submit(id, q, kind)), Deliver(id, id, "worker"));
            id in t.jobs && t.jobs[id].scorer == None && t.objects == s.objects
  {
    hide Verdict, Known;
  }

  lemma AdmittedIsBound(h: Hashing, q: Request, kind: Kind, b: Binding)
    requires q.contract == CONTRACT && q.kind == kind
    requires b == Binding(kind, q, Digest(h, RequestValue(q)), q.scope.tenant, q.scope.project)
    ensures Bound(h, b)
  {
    hide Digest;
  }

  /** The request with two held-out items on one decision is admitted, and its job ends refused;
      a second delivery leaves it so. */
  lemma SharedDecisionEndsRefused(h: Hashing, limit: nat)
    requires WellHashed(h)
    ensures var t := Run(h, Empty(limit), Refusal(0, Ask(Fit, "fit", SHARED, "decision", None), Fit, None) + [Deliver(1, 0, "again")]);
            0 in t.jobs && t.jobs[0].status == Refused && t.jobs[0].scorer == None && t.objects == map[]
  {
    var q := Ask(Fit, "fit", SHARED, "decision", None);
    SharedDecisionRefused(h, Digest(h, RequestValue(q)));
    var s := Run(h, Empty(limit), Refusal(0, q, Fit, None));
    FirstStart(h, q);
    hide FitOf, Verdict, Run, Refusal;
    JobRefused(h, Empty(limit), 0, q, Fit, None, None, None);
    RunJoin(h, Empty(limit), Refusal(0, q, Fit, None), [Deliver(1, 0, "again")]);
    RunOne(h, s, Deliver(1, 0, "again"));
    hide Start, Bound, Digest;
    RefusedStays(h, s, "again");
  }

  lemma RefusedStays(h: Hashing, s: System, task: string)
    requires WellHashed(h) && 0 in s.jobs && s.jobs[0].status == Refused
    ensures var t := Next(h, s, Deliver(1, 0, task)); t.jobs == s.jobs && t.objects == s.objects
  {
  }
}
