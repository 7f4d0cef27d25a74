// Competence fit jobs under interleaving: any number of jobs, workers, recoveries and
// cancellations, with workers that may meet a job another worker is already running.

module CompetenceJobs {
  import opened Common
  import opened CompetenceContract
  import opened CompetenceFit
  import opened CompetenceChains

  datatype Status = Queued | Running | Succeeded | Failed | Refused | Canceled

  /** An object key: everything it is derived from. */
  datatype Key = Key(tenant: string, project: string, candidate: string, kind: ArtifactKind, digest: string)

  /** The part of a job row that never changes, and the part that does. */
  datatype Binding = Binding(kind: Kind, request: Request, digest: string, tenant: string, project: string)
  datatype Job = Job(
    binding: Binding, status: Status, task: string, attempts: nat, scorer: Option<Scorer>, artifacts: map<string, Key>)

  // ----- One row, one transaction -----

  function Claimed(j: Job, task: string): Job {
    if j.status in {Succeeded, Refused, Canceled} then j
    else if j.status == Running && j.task != "" && j.task != task then j
    else j.(status := Running, task := task, attempts := j.attempts + 1)
  }

  function Recorded(j: Job, id: string, key: Key): Option<Job> {
    if id in j.artifacts && j.artifacts[id] != key then None
    else Some(j.(artifacts := j.artifacts[id := key]))
  }

  function Finished(j: Job, scorer: Scorer, artifacts: map<string, Key>): Job {
    if j.status != Running then j
    else j.(status := Succeeded, scorer := Some(scorer), artifacts := artifacts)
  }

  /** A problem is recorded over any status but a cancellation, success included. */
  function Troubled(j: Job, status: Status): Job {
    if j.status == Canceled then j else j.(status := status)
  }

  function Recovered(j: Job): Job {
    if j.status == Running then j.(status := Queued, task := "") else j
  }

  class CompetenceJob {
    const binding: Binding
    var status: Status
    var task: string
    var attempts: nat
    var scorer: Option<Scorer>
    var artifacts: map<string, Key>

    constructor (binding: Binding)
      ensures Row() == Job(binding, Queued, "", 0, None, map[])
    {
      this.binding := binding;
      status, task, attempts, scorer, artifacts := Queued, "", 0, None, map[];
    }

    function Row(): Job
      reads this
    {
      Job(binding, status, task, attempts, scorer, artifacts)
    }

    method Claim(taskId: string) returns (proceed: bool)
      modifies this
      ensures Row() == Claimed(old(Row()), taskId)
      ensures proceed <==> old(status) !in {Succeeded, Refused, Canceled}
      ensures !proceed ==> Row() == old(Row())
      ensures if old(status) in {Queued, Failed} || (old(status) == Running && (old(task) == "" || old(task) == taskId))
              then status == Running && task == taskId && attempts == old(attempts) + 1
              else Row() == old(Row())
      ensures scorer == old(scorer) && artifacts == old(artifacts)
    {
      if status == Succeeded || status == Refused || status == Canceled {
        return false;
      }
      if status == Running && task != "" && task != taskId {
        return true;
      }
      status, task, attempts := Running, taskId, attempts + 1;
      return true;
    }

    method RecordArtifact(id: string, key: Key) returns (ok: bool)
      modifies this`artifacts
      ensures ok <==> Recorded(old(Row()), id, key).Some?
      ensures Row() == if ok then Recorded(old(Row()), id, key).value else old(Row())
      ensures ok <==> id in artifacts && artifacts[id] == key
      ensures forall k :: k in old(artifacts) ==> k in artifacts && artifacts[k] == old(artifacts)[k]
    {
      if id in artifacts && artifacts[id] != key {
        return false;
      }
      artifacts := artifacts[id := key];
      return true;
    }

    method FinishSuccess(fitted: Scorer, keys: map<string, Key>)
      modifies this`status, this`scorer, this`artifacts
      ensures Row() == Finished(old(Row()), fitted, keys)
      ensures old(status) == Running ==> status == Succeeded && scorer == Some(fitted) && artifacts == keys
      ensures old(status) != Running ==> Row() == old(Row())
    {
      if status == Canceled || status == Succeeded || status != Running {
        return;
      }
      scorer, artifacts, status := Some(fitted), keys, Succeeded;
    }

    method FinishProblem(problem: Status)
      modifies this`status
      ensures Row() == Troubled(old(Row()), problem)
      ensures old(status) != Canceled ==> status == problem
      ensures scorer == old(scorer) && artifacts == old(artifacts) && (old(status) == Canceled ==> Row() == old(Row()))
    {
      if status == Canceled {
        return;
      }
      status := problem;
    }

    /** One row of a sweep that finds it stale. */
    method Recover()
      modifies this`status, this`task
      ensures Row() == Recovered(old(Row()))
      ensures status != Running && (old(status) != Running ==> Row() == old(Row()))
      ensures attempts == old(attempts) && scorer == old(scorer) && artifacts == old(artifacts)
    {
      if status == Running {
        status, task := Queued, "";
      }
    }
  }

  // ----- The whole system -----

  /** What a worker does next. */
  datatype Stage =
    | Fitting
    | Writing(fitted: Fitted, kind: ArtifactKind)
    | Reading(fitted: Fitted, kind: ArtifactKind)      // the object is put, not yet read back
    | Recording(fitted: Fitted, kind: ArtifactKind)
    | Finishing(fitted: Fitted)
    | Raised(problem: Status)                          // an exception, before it is recorded
    | Done

  datatype Worker = Worker(job: nat, stage: Stage)

  /** Rows, workers and objects; and as histories, the fit of each job, the objects that were
      written and read back, and the payloads that were hashed. */
  datatype System = System(
    jobs: map<nat, Job>, workers: map<nat, Worker>, objects: map<Key, Payload>, limit: nat,
    fits: map<nat, Link>, published: set<(Key, Payload)>, hashed: set<Payload>)

  datatype Step =
    | Submit(id: nat, request: Request, kind: Kind)
    | Deliver(worker: nat, id: nat, task: string)
    | Fits(worker: nat, candidate: Option<nat>)
    | Advance(worker: nat)
    | Fail(worker: nat)                    // a storage or unexpected error
    | Abandon(worker: nat)                 // a crash, or a retry left to the broker
    | Sweep(stale: set<nat>)
    | Cancel(id: nat)                      // set from outside; no route of the service does
    | Lose(key: Key)                       // an object disappears from storage

  function PayloadOf(f: Fitted, kind: ArtifactKind): Payload {
    if kind == PriorPack then f.priorPack else f.model
  }

  function DescriptorOf(f: Fitted, kind: ArtifactKind): Artifact {
    if kind == PriorPack then f.scorer.priorPack else f.scorer.model
  }

  function KeyOf(h: Hashing, b: Binding, f: Fitted, kind: ArtifactKind): Key {
    Key(b.tenant, b.project, b.request.scope.candidate, kind, Digest(h, PayloadOf(f, kind)))
  }

  function ArtifactsOf(h: Hashing, b: Binding, f: Fitted): map<string, Key> {
    map[Digest(h, f.priorPack) := KeyOf(h, b, f, PriorPack)][Digest(h, f.model) := KeyOf(h, b, f, ScorerModel)]
  }

  /** The persisted request still matches the identity it was accepted under. */
  predicate Bound(h: Hashing, b: Binding) {
    && b.request.contract == CONTRACT && b.request.kind == b.kind && b.digest == Digest(h, RequestValue(b.request))
    && b.request.scope.tenant == b.tenant && b.request.scope.project == b.project
  }

  predicate Candidate(h: Hashing, s: System, id: nat, k: nat)
    requires id in s.jobs && s.jobs[id].binding.request.previous.Some?
  {
    && k in s.jobs && k != id && s.jobs[k].status == Succeeded
    && s.jobs[k].binding.tenant == s.jobs[id].binding.tenant && s.jobs[k].binding.project == s.jobs[id].binding.project
    && s.jobs[k].scorer.Some? && ScorerValid(h, s.jobs[k].scorer.value)
    && Names(s.jobs[id].binding.request.previous.value, s.jobs[k].scorer.value)
  }

  function Goto(s: System, w: nat, stage: Stage): System
    requires w in s.workers
  {
    s.(workers := s.workers[w := s.workers[w].(stage := stage)])
  }

  /** The step after a fit: publish what was fitted, or report the refusal. */
  function AfterFit(s: System, w: nat, r: Result<Fitted, FitError>): System
    requires w in s.workers && s.workers[w].job in s.jobs
  {
    if r.Err? then Goto(s, w, Raised(Refused))
    else
      var id := s.workers[w].job;
      var b := s.jobs[id].binding;
      Goto(s, w, Writing(r.value, PriorPack)).(
        fits := s.fits[id := Link(b.request, b.digest, r.value)], hashed := s.hashed + {r.value.model, r.value.priorPack})
  }

  ghost function FitStep(h: Hashing, s: System, w: nat, candidate: Option<nat>): System
    requires WellHashed(h) && w in s.workers && s.workers[w].job in s.jobs
  {
    var id := s.workers[w].job;
    var b := s.jobs[id].binding;
    if !Bound(h, b) then Goto(s, w, Raised(Refused))
    else if b.request.previous.None? then AfterFit(s, w, FitOf(h, b.request, b.digest, None, None))
    else if candidate.None? then
      if exists k :: Candidate(h, s, id, k) then s else Goto(s, w, Raised(Refused))
    else if !Candidate(h, s, id, candidate.value) then s
    else
      var other := s.jobs[candidate.value];
      AfterFit(s, w, FitOf(h, b.request, b.digest, Some(other.scorer.value), Some(other.binding.request)))
  }

  function WithJob(s: System, id: nat, j: Job): System {
    s.(jobs := s.jobs[id := j])
  }

  function AdvanceStep(h: Hashing, s: System, w: nat): System
    requires w in s.workers && s.workers[w].job in s.jobs
  {
    var id := s.workers[w].job;
    var j := s.jobs[id];
    match s.workers[w].stage
    case Writing(f, kind) =>
      var p := PayloadOf(f, kind);
      if h.size(p) == 0 || h.size(p) > s.limit then Goto(s, w, Raised(Failed))
      else Goto(s, w, Reading(f, kind)).(objects := s.objects[KeyOf(h, j.binding, f, kind) := p])
    case Reading(f, kind) =>
      var p := PayloadOf(f, kind);
      var key := KeyOf(h, j.binding, f, kind);
      if key !in s.objects || s.objects[key] != p
         || key.digest != DescriptorOf(f, kind).payloadDigest || h.size(p) != DescriptorOf(f, kind).byteLength
      then Goto(s, w, Raised(Failed))
      else Goto(s, w, Recording(f, kind)).(published := s.published + {(key, p)})
    case Recording(f, kind) =>
      var key := KeyOf(h, j.binding, f, kind);
      var r := Recorded(j, key.digest, key);
      if r.None? then Goto(s, w, Raised(Failed))
      else WithJob(Goto(s, w, if kind == PriorPack then Writing(f, ScorerModel) else Finishing(f)), id, r.value)
    case Finishing(f) => WithJob(Goto(s, w, Done), id, Finished(j, f.scorer, ArtifactsOf(h, j.binding, f)))
    case Raised(problem) => WithJob(Goto(s, w, Done), id, Troubled(j, problem))
    case Fitting => s
    case Done => s
  }

  function SubmitStep(h: Hashing, s: System, id: nat, q: Request, kind: Kind): System {
    var b := Binding(kind, q, Digest(h, RequestValue(q)), q.scope.tenant, q.scope.project);
    WithJob(s, id, Job(b, Queued, "", 0, None, map[])).(hashed := s.hashed + {RequestValue(q)})
  }

  function DeliverStep(s: System, w: nat, id: nat, task: string): System
    requires id in s.jobs
  {
    var j := Claimed(s.jobs[id], task);
    WithJob(s, id, j).(workers := s.workers[w := Worker(id, if j.status == Running then Fitting else Done)])
  }

  predicate AtWork(s: System, w: nat) {
    w in s.workers && s.workers[w].job in s.jobs && !s.workers[w].stage.Raised? && !s.workers[w].stage.Done?
  }

  predicate Known(s: System, tenant: string, operationId: string) {
    exists id :: id in s.jobs && s.jobs[id].binding.tenant == tenant && s.jobs[id].binding.request.operationId == operationId
  }

  /** One atomic step; a step that is not enabled changes nothing. */
  ghost function Next(h: Hashing, s: System, step: Step): System
    requires WellHashed(h)
  {
    match step
    case Submit(id, q, kind) =>
      if id in s.jobs || Verdict(q, kind).Some? || Known(s, q.scope.tenant, q.operationId) then s else SubmitStep(h, s, id, q, kind)
    case Deliver(w, id, task) =>
      if w in s.workers || id !in s.jobs then s else DeliverStep(s, w, id, task)
    case Fits(w, candidate) =>
      if !AtWork(s, w) || s.workers[w].stage != Fitting then s else FitStep(h, s, w, candidate)
    case Advance(w) =>
      if w !in s.workers || s.workers[w].job !in s.jobs then s else AdvanceStep(h, s, w)
    case Fail(w) => if !AtWork(s, w) then s else Goto(s, w, Raised(Failed))
    case Abandon(w) => if w !in s.workers then s else Goto(s, w, Done)
    case Sweep(stale) => s.(jobs := map id | id in s.jobs :: if id in stale then Recovered(s.jobs[id]) else s.jobs[id])
    case Cancel(id) => if id !in s.jobs then s else WithJob(s, id, s.jobs[id].(status := Canceled))
    case Lose(key) => s.(objects := s.objects - {key})
  }

  ghost function Run(h: Hashing, s: System, steps: seq<Step>): System
    requires WellHashed(h)
  {
    if steps == [] then s else Next(h, Run(h, s, steps[..|steps| - 1]), steps[|steps| - 1])
  }

  function Empty(limit: nat): System {
    System(map[], map[], map[], limit, map[], {}, {})
  }

  // ----- The invariant -----

  /** No two payloads hashed so far share a digest. */
  ghost predicate CollisionFree(h: Hashing, hashed: set<Payload>) {
    forall p, q :: p in hashed && q in hashed && h.hex(p) == h.hex(q) ==> p == q
  }

  ghost predicate Published(h: Hashing, s: System, b: Binding, f: Fitted, kind: ArtifactKind) {
    (KeyOf(h, b, f, kind), PayloadOf(f, kind)) in s.published
  }

  /** f is the fit of job id. */
  ghost predicate IsFitOf(s: System, id: nat, f: Fitted) {
    id in s.fits && s.fits[id].fitted == f
  }

  ghost predicate JobOk(h: Hashing, s: System, id: nat)
    requires id in s.jobs
  {
    var j := s.jobs[id];
    && Bound(h, j.binding) && Admitted(j.binding.request, j.binding.kind) && RequestValue(j.binding.request) in s.hashed
    && (j.scorer.Some? ==> id in s.fits && j.scorer.value == s.fits[id].fitted.scorer)
    && (j.status == Succeeded ==> SuccessOk(h, s, id, j))
  }

  ghost predicate SuccessOk(h: Hashing, s: System, id: nat, j: Job) {
    && id in s.fits && j.scorer == Some(s.fits[id].fitted.scorer)
    && j.artifacts == ArtifactsOf(h, j.binding, s.fits[id].fitted)
    && Published(h, s, j.binding, s.fits[id].fitted, PriorPack) && Published(h, s, j.binding, s.fits[id].fitted, ScorerModel)
  }

  ghost predicate WorkerOk(h: Hashing, s: System, w: Worker) {
    w.job in s.jobs &&
    var b := s.jobs[w.job].binding;
    match w.stage
    case Writing(f, kind) => IsFitOf(s, w.job, f) && (kind == ScorerModel ==> Published(h, s, b, f, PriorPack))
    case Reading(f, kind) => IsFitOf(s, w.job, f) && (kind == ScorerModel ==> Published(h, s, b, f, PriorPack))
    case Recording(f, kind) =>
      IsFitOf(s, w.job, f) && Published(h, s, b, f, kind) && (kind == ScorerModel ==> Published(h, s, b, f, PriorPack))
    case Finishing(f) => IsFitOf(s, w.job, f) && Published(h, s, b, f, ScorerModel) && Published(h, s, b, f, PriorPack)
    case Raised(problem) => problem == Failed || problem == Refused
    case _ => true
  }

  /** A link that ends a chain of fits. */
  ghost predicate Grounded(h: Hashing, l: Link) {
    exists links :: Chain(h, links) && Last(links) == l
  }

  /** Where a fit came from: nothing, or another job's fit. */
  ghost predicate Derived(h: Hashing, fits: map<nat, Link>, l: Link) {
    if l.request.previous.None? then Opens(h, l) else exists k :: k in fits && Follows(h, fits[k], l)
  }

  ghost predicate FitOk(h: Hashing, s: System, id: nat)
    requires id in s.fits
  {
    var l := s.fits[id];
    && id in s.jobs && l.request == s.jobs[id].binding.request && l.digest == s.jobs[id].binding.digest
    && l.fitted.model in s.hashed && Grounded(h, l) && Derived(h, s.fits, l)
  }

  ghost predicate Invariant(h: Hashing, s: System) {
    && (forall id {:trigger JobOk(h, s, id)} :: id in s.jobs ==> JobOk(h, s, id))
    && (forall w {:trigger WorkerOk(h, s, s.workers[w])} :: w in s.workers ==> WorkerOk(h, s, s.workers[w]))
    && (forall id {:trigger FitOk(h, s, id)} :: id in s.fits ==> FitOk(h, s, id))
  }

  // ----- What every step leaves in place -----

  ghost predicate SameBinding(s: System, t: System, id: nat) {
    id in s.jobs ==> id in t.jobs && t.jobs[id].binding == s.jobs[id].binding
  }

  ghost predicate SameFit(s: System, t: System, id: nat) {
    id in s.fits ==> id in t.fits && t.fits[id] == s.fits[id]
  }

  ghost predicate Extends(s: System, t: System) {
    && (forall id {:trigger SameBinding(s, t, id)} :: SameBinding(s, t, id))
    && (forall id {:trigger SameFit(s, t, id)} :: SameFit(s, t, id))
    && s.published <= t.published && s.hashed <= t.hashed
  }

  lemma WorkerStays(h: Hashing, s: System, t: System, w: Worker)
    requires Extends(s, t) && WorkerOk(h, s, w)
    ensures WorkerOk(h, t, w)
  {
    assert SameBinding(s, t, w.job) && SameFit(s, t, w.job);
  }

  lemma JobStays(h: Hashing, s: System, t: System, id: nat)
    requires Extends(s, t) && id in s.jobs && JobOk(h, s, id) && id in t.jobs && t.jobs[id] == s.jobs[id]
    ensures JobOk(h, t, id)
  {
    hide Admitted, Bound, ArtifactsOf;
    assert SameFit(s, t, id);
  }

  lemma FitStays(h: Hashing, s: System, t: System, id: nat)
    requires Extends(s, t) && id in s.fits && FitOk(h, s, id)
    ensures id in t.fits && FitOk(h, t, id)
  {
    hide Opens, Follows, Grounded;
    assert SameBinding(s, t, id) && SameFit(s, t, id);
    var l := s.fits[id];
    if l.request.previous.Some? {
      var k :| k in s.fits && Follows(h, s.fits[k], l);
      assert SameFit(s, t, k);
      assert Follows(h, t.fits[k], l);
    }
  }

  /** Only what a step touched has to be looked at again. */
  lemma Carry(h: Hashing, s: System, t: System, job: Option<nat>, worker: Option<nat>)
    requires Invariant(h, s) && Extends(s, t)
    requires forall id :: id in t.jobs && job != Some(id) ==> id in s.jobs && t.jobs[id] == s.jobs[id]
    requires job.Some? && job.value in t.jobs ==> JobOk(h, t, job.value)
    requires forall w :: w in t.workers && worker != Some(w) ==> w in s.workers && t.workers[w] == s.workers[w]
    requires worker.Some? && worker.value in t.workers ==> WorkerOk(h, t, t.workers[worker.value])
    requires forall id :: id in t.fits && id !in s.fits ==> FitOk(h, t, id)
    ensures Invariant(h, t)
  {
    hide JobOk, WorkerOk, FitOk, Extends;
    forall id | id in t.jobs ensures JobOk(h, t, id) {
      if job != Some(id) { JobStays(h, s, t, id); }
    }
    forall w | w in t.workers ensures WorkerOk(h, t, t.workers[w]) {
      if worker != Some(w) { WorkerStays(h, s, t, t.workers[w]); }
    }
    forall id | id in t.fits ensures FitOk(h, t, id) {
      if id in s.fits { FitStays(h, s, t, id); }
    }
  }

  // ----- A job has only one fit -----

  /** The result of a refit depends on the previous scorer only through what its name fixes. */
  lemma SamePreviousSameFit(h: Hashing, hashed: set<Payload>, a: Link, b: Link, q: Request, digest: string)
    requires CollisionFree(h, hashed) && a.fitted.model in hashed && b.fitted.model in hashed
    requires RequestValue(a.request) in hashed && RequestValue(b.request) in hashed
    requires a.digest == Digest(h, RequestValue(a.request)) && b.digest == Digest(h, RequestValue(b.request))
    requires Grounded(h, a) && Grounded(h, b) && q.previous.Some? && q.kind == Refit
    requires Names(q.previous.value, a.fitted.scorer) && Names(q.previous.value, b.fitted.scorer)
    requires PriorScorer(h, Some(a.fitted.scorer)) && PriorScorer(h, Some(b.fitted.scorer))
    ensures FitOf(h, q, digest, Some(a.fitted.scorer), Some(a.request)) == FitOf(h, q, digest, Some(b.fitted.scorer), Some(b.request))
  {
    hide Lineages, ScorerValid, Grounded, Learned, ScorerOf, ModelOf, PriorPackOf, InOrder;
    GroundedModel(h, a);
    GroundedModel(h, b);
    SameDigest(h, hashed, a.fitted.model, b.fitted.model);
    SameDigest(h, hashed, RequestValue(a.request), RequestValue(b.request));
    assert StartingPrior(q, Some(a.fitted.scorer), Some(a.request)) == StartingPrior(q, Some(b.fitted.scorer), Some(b.request));
    SameStartSameFit(h, q, digest, Some(a.fitted.scorer), Some(a.request), Some(b.fitted.scorer), Some(b.request));
  }

  lemma SameDigest(h: Hashing, hashed: set<Payload>, p: Payload, q: Payload)
    requires CollisionFree(h, hashed) && p in hashed && q in hashed && Digest(h, p) == Digest(h, q)
    ensures p == q
  {
    assert Digest(h, p)[7..] == h.hex(p) && Digest(h, q)[7..] == h.hex(q);
  }

  lemma SameStartSameFit(
    h: Hashing, q: Request, digest: string, scorer: Option<Scorer>, earlier: Option<Request>, scorer': Option<Scorer>, earlier': Option<Request>)
    requires PriorScorer(h, scorer) && PriorScorer(h, scorer')
    requires StartingPrior(q, scorer, earlier) == StartingPrior(q, scorer', earlier')
    ensures FitOf(h, q, digest, scorer, earlier) == FitOf(h, q, digest, scorer', earlier')
  {
    hide ScorerValid, Learned, ScorerOf, ModelOf, PriorPackOf, InOrder, StartingPrior;
  }

  lemma GroundedModel(h: Hashing, l: Link)
    requires Grounded(h, l)
    ensures l.fitted.model.ModelValue? && l.fitted.scorer.model.id == Digest(h, l.fitted.model)
    ensures l.fitted.model.posterior == Posterior(l) && l.fitted.model.requestDigest == l.digest
    ensures ScorerValid(h, l.fitted.scorer) && l.fitted.scorer.priorPack.payloadDigest == Digest(h, l.fitted.priorPack)
  {
    hide FitOf, Learned, InOrder, StartingPrior;
    var links: seq<Link> :| Chain(h, links) && Last(links) == l;
    if |links| == 1 {
      FittedFacts(h, l.request, l.digest, None, None);
    } else {
      var a := links[|links| - 2];
      FittedFacts(h, l.request, l.digest, Some(a.fitted.scorer), Some(a.request));
    }
  }

  // ----- Every step keeps the invariant -----

  /** Changing one worker's stage. */
  lemma GotoKeeps(h: Hashing, s: System, w: nat, stage: Stage)
    requires Invariant(h, s) && w in s.workers && WorkerOk(h, s, s.workers[w].(stage := stage))
    ensures Invariant(h, Goto(s, w, stage))
  {
    var t := Goto(s, w, stage);
    WorkerStays(h, s, t, t.workers[w]);
    Carry(h, s, t, None, Some(w));
  }

  /** Changing one row within its binding, and possibly the worker that did it. */
  lemma RowKeeps(h: Hashing, s: System, id: nat, j: Job)
    requires Invariant(h, s) && id in s.jobs && j.binding == s.jobs[id].binding
    requires j.scorer.Some? ==> id in s.fits && j.scorer.value == s.fits[id].fitted.scorer
    requires j.status == Succeeded ==> SuccessOk(h, s, id, j)
    ensures Invariant(h, WithJob(s, id, j))
  {
    hide Bound, Admitted, ArtifactsOf;
    var t := WithJob(s, id, j);
    assert JobOk(h, s, id);
    Carry(h, s, t, Some(id), None);
  }

  lemma SubmitKeeps(h: Hashing, s: System, id: nat, q: Request, kind: Kind)
    requires Invariant(h, s) && id !in s.jobs && Verdict(q, kind).None?
    ensures Invariant(h, SubmitStep(h, s, id, q, kind))
  {
    hide Verdict, Admitted;
    VerdictMeansAdmitted(q, kind);
    AdmittedHeader(q, kind);
    Carry(h, s, SubmitStep(h, s, id, q, kind), Some(id), None);
  }

  lemma AdmittedHeader(q: Request, kind: Kind)
    requires Admitted(q, kind)
    ensures q.contract == CONTRACT && q.kind == kind && (kind == Refit <==> q.previous.Some?)
  {
  }

  lemma DeliverKeeps(h: Hashing, s: System, w: nat, id: nat, task: string)
    requires Invariant(h, s) && w !in s.workers && id in s.jobs
    ensures Invariant(h, DeliverStep(s, w, id, task))
  {
    hide Admitted, Bound, ArtifactsOf;
    var j := Claimed(s.jobs[id], task);
    assert JobOk(h, s, id);
    RowKeeps(h, s, id, j);
    Carry(h, WithJob(s, id, j), DeliverStep(s, w, id, task), None, Some(w));
  }

  lemma WriteKeeps(h: Hashing, s: System, w: nat)
    requires Invariant(h, s) && w in s.workers && s.workers[w].job in s.jobs && s.workers[w].stage.Writing?
    ensures Invariant(h, AdvanceStep(h, s, w))
  {
    var t := AdvanceStep(h, s, w);
    assert WorkerOk(h, s, s.workers[w]);
    Carry(h, s, t, None, Some(w));
  }

  lemma ReadKeeps(h: Hashing, s: System, w: nat)
    requires Invariant(h, s) && w in s.workers && s.workers[w].job in s.jobs && s.workers[w].stage.Reading?
    ensures Invariant(h, AdvanceStep(h, s, w))
  {
    var t := AdvanceStep(h, s, w);
    assert WorkerOk(h, s, s.workers[w]);
    Carry(h, s, t, None, Some(w));
  }

  /** Recording again on a row that already holds both artifacts changes nothing. */
  lemma RecordedAgain(h: Hashing, j: Job, f: Fitted, kind: ArtifactKind)
    requires j.artifacts == ArtifactsOf(h, j.binding, f)
    ensures var key := KeyOf(h, j.binding, f, kind);
            Recorded(j, key.digest, key).None? || Recorded(j, key.digest, key).value == j
  {
    var key := KeyOf(h, j.binding, f, kind);
    if Recorded(j, key.digest, key).Some? {
      assert j.artifacts[key.digest := key] == j.artifacts;
    }
  }

  lemma RecordKeeps(h: Hashing, s: System, w: nat)
    requires Invariant(h, s) && w in s.workers && s.workers[w].job in s.jobs && s.workers[w].stage.Recording?
    ensures Invariant(h, AdvanceStep(h, s, w))
  {
    hide ArtifactsOf, Bound, Admitted;
    var worker := s.workers[w];
    var id := worker.job;
    var j := s.jobs[id];
    var f, kind := worker.stage.fitted, worker.stage.kind;
    assert WorkerOk(h, s, worker) && JobOk(h, s, id);
    var key := KeyOf(h, j.binding, f, kind);
    var r := Recorded(j, key.digest, key);
    if r.None? {
      GotoKeeps(h, s, w, Raised(Failed));
    } else {
      var stage := if kind == PriorPack then Writing(f, ScorerModel) else Finishing(f);
      GotoKeeps(h, s, w, stage);
      if j.status == Succeeded {
        RecordedAgain(h, j, f, kind);
      }
      RowKeeps(h, Goto(s, w, stage), id, r.value);
    }
  }

  lemma FinishKeeps(h: Hashing, s: System, w: nat)
    requires Invariant(h, s) && w in s.workers && s.workers[w].job in s.jobs && s.workers[w].stage.Finishing?
    ensures Invariant(h, AdvanceStep(h, s, w))
  {
    hide ArtifactsOf, Bound, Admitted;
    var id := s.workers[w].job;
    var j := s.jobs[id];
    var f := s.workers[w].stage.fitted;
    assert WorkerOk(h, s, s.workers[w]) && JobOk(h, s, id);
    GotoKeeps(h, s, w, Done);
    RowKeeps(h, Goto(s, w, Done), id, Finished(j, f.scorer, ArtifactsOf(h, j.binding, f)));
  }

  lemma TroubleKeeps(h: Hashing, s: System, w: nat)
    requires Invariant(h, s) && w in s.workers && s.workers[w].job in s.jobs && s.workers[w].stage.Raised?
    ensures Invariant(h, AdvanceStep(h, s, w))
  {
    hide ArtifactsOf, Bound, Admitted;
    var id := s.workers[w].job;
    assert WorkerOk(h, s, s.workers[w]) && JobOk(h, s, id);
    GotoKeeps(h, s, w, Done);
    RowKeeps(h, Goto(s, w, Done), id, Troubled(s.jobs[id], s.workers[w].stage.problem));
  }

  lemma AdvanceKeeps(h: Hashing, s: System, w: nat)
    requires Invariant(h, s) && w in s.workers && s.workers[w].job in s.jobs
    ensures Invariant(h, AdvanceStep(h, s, w))
  {
    hide Invariant, AdvanceStep;
    match s.workers[w].stage
    case Writing(_, _) => WriteKeeps(h, s, w);
    case Reading(_, _) => ReadKeeps(h, s, w);
    case Recording(_, _) => RecordKeeps(h, s, w);
    case Finishing(_) => FinishKeeps(h, s, w);
    case Raised(_) => TroubleKeeps(h, s, w);
    case Fitting => IdleAdvance(h, s, w);
    case Done => IdleAdvance(h, s, w);
  }

  lemma IdleAdvance(h: Hashing, s: System, w: nat)
    requires w in s.workers && s.workers[w].job in s.jobs && s.workers[w].stage in {Fitting, Done}
    ensures AdvanceStep(h, s, w) == s
  {
  }

  // ----- A fit step -----

  /** A fit that is new to its job, or repeats the one it has. */
  lemma FitKeeps(h: Hashing, s: System, w: nat, r: Result<Fitted, FitError>)
    requires Invariant(h, s) && w in s.workers && s.workers[w].job in s.jobs
    requires var id := s.workers[w].job; var b := s.jobs[id].binding;
             r.Ok? ==>
               && (id in s.fits ==> s.fits[id].fitted == r.value)
               && (id !in s.fits ==> Grounded(h, Link(b.request, b.digest, r.value)) && Derived(h, s.fits, Link(b.request, b.digest, r.value)))
    ensures Invariant(h, AfterFit(s, w, r))
  {
    hide Grounded, Opens, Follows;
    if r.Err? {
      GotoKeeps(h, s, w, Raised(Refused));
    } else {
      var id := s.workers[w].job;
      var b := s.jobs[id].binding;
      var l := Link(b.request, b.digest, r.value);
      var t := AfterFit(s, w, r);
      if id in s.fits {
        assert FitOk(h, s, id);
        assert s.fits[id] == l;
      } else {
        DerivedStays(h, s.fits, t.fits, l);
      }
      Carry(h, s, t, None, Some(w));
    }
  }

  lemma DerivedStays(h: Hashing, fits: map<nat, Link>, more: map<nat, Link>, l: Link)
    requires Derived(h, fits, l) && forall k :: k in fits ==> k in more && more[k] == fits[k]
    ensures Derived(h, more, l)
  {
    hide Follows, Opens;
    if l.request.previous.Some? {
      var k :| k in fits && Follows(h, fits[k], l);
      assert k in more && Follows(h, more[k], l);
    }
  }

  /** A first fit has only one possible outcome. */
  lemma FirstFitAgrees(h: Hashing, s: System, id: nat)
    requires WellHashed(h) && Invariant(h, s) && id in s.jobs && s.jobs[id].binding.request.previous.None?
    ensures var b := s.jobs[id].binding;
            var r := FitOf(h, b.request, b.digest, None, None);
            r.Ok? ==>
              && (id in s.fits ==> s.fits[id].fitted == r.value)
              && (id !in s.fits ==> Grounded(h, Link(b.request, b.digest, r.value)) && Derived(h, s.fits, Link(b.request, b.digest, r.value)))
  {
    hide FitOf, Admitted;
    var b := s.jobs[id].binding;
    var r := FitOf(h, b.request, b.digest, None, None);
    assert JobOk(h, s, id);
    AdmittedHeader(b.request, b.kind);
    if r.Ok? {
      var l := Link(b.request, b.digest, r.value);
      if id in s.fits {
        assert FitOk(h, s, id);
      } else {
        assert Opens(h, l);
        assert Chain(h, [l]) && Last([l]) == l;
      }
    }
  }

  /** A refit has only one possible outcome, whichever matching scorer is found. */
  lemma RefitAgrees(h: Hashing, s: System, id: nat, k: nat)
    requires WellHashed(h) && Invariant(h, s) && CollisionFree(h, s.hashed)
    requires id in s.jobs && s.jobs[id].binding.request.previous.Some? && Candidate(h, s, id, k)
    ensures var b := s.jobs[id].binding;
            var other := s.jobs[k];
            var r := FitOf(h, b.request, b.digest, Some(other.scorer.value), Some(other.binding.request));
            r.Ok? ==>
              && (id in s.fits ==> s.fits[id].fitted == r.value)
              && (id !in s.fits ==> Grounded(h, Link(b.request, b.digest, r.value)) && Derived(h, s.fits, Link(b.request, b.digest, r.value)))
  {
    hide FitOf, Admitted, ScorerValid, Opens, ArtifactsOf, Grounded;
    var b := s.jobs[id].binding;
    var other := s.jobs[k];
    assert JobOk(h, s, id) && JobOk(h, s, k) && FitOk(h, s, k);
    AdmittedHeader(b.request, b.kind);
    var a := s.fits[k];
    assert a.request == other.binding.request && a.fitted.scorer == other.scorer.value;
    ValidScorerIsPositive(h, a.fitted.scorer);
    var r := FitOf(h, b.request, b.digest, Some(a.fitted.scorer), Some(a.request));
    if r.Ok? {
      var l := Link(b.request, b.digest, r.value);
      if id in s.fits {
        assert FitOk(h, s, id);
        RefitRepeats(h, s, id, k);
      } else {
        assert Follows(h, a, l);
        GroundedFurther(h, a, l);
      }
    }
  }

  lemma GroundedFurther(h: Hashing, a: Link, l: Link)
    requires Grounded(h, a) && Follows(h, a, l)
    ensures Grounded(h, l)
  {
    hide Follows, Opens;
    var links: seq<Link> :| Chain(h, links) && Last(links) == a;
    assert (links + [l])[..|links|] == links;
    assert Chain(h, links + [l]) && Last(links + [l]) == l;
  }

  lemma RefitRepeats(h: Hashing, s: System, id: nat, k: nat)
    requires Invariant(h, s) && CollisionFree(h, s.hashed) && id in s.fits && FitOk(h, s, id) && k in s.fits && FitOk(h, s, k)
    requires s.jobs[id].binding.request.previous.Some? && s.jobs[id].binding.request.kind == Refit
    requires Names(s.jobs[id].binding.request.previous.value, s.fits[k].fitted.scorer)
    requires PriorScorer(h, Some(s.fits[k].fitted.scorer))
    ensures FitOf(h, s.fits[id].request, s.fits[id].digest, Some(s.fits[k].fitted.scorer), Some(s.fits[k].request)) == Ok(s.fits[id].fitted)
  {
    hide FitOf, Admitted, ScorerValid, Opens, Grounded, ArtifactsOf;
    var l := s.fits[id];
    var k' :| k' in s.fits && Follows(h, s.fits[k'], l);
    StepFacts(h, s.fits[k'], l);
    assert FitOk(h, s, k') && JobOk(h, s, k') && JobOk(h, s, k);
    SamePreviousSameFit(h, s.hashed, s.fits[k'], s.fits[k], l.request, l.digest);
  }

  lemma FitStepKeeps(h: Hashing, s: System, w: nat, candidate: Option<nat>)
    requires WellHashed(h) && Invariant(h, s) && CollisionFree(h, s.hashed) && w in s.workers && s.workers[w].job in s.jobs
    ensures Invariant(h, FitStep(h, s, w, candidate))
  {
    hide FitOf, Admitted, Candidate, AfterFit, Invariant, Grounded, Derived, Bound;
    var id := s.workers[w].job;
    var b := s.jobs[id].binding;
    GotoRefused(h, s, w);
    if Bound(h, b) {
      if b.request.previous.None? {
        FirstFitAgrees(h, s, id);
        FitKeeps(h, s, w, FitOf(h, b.request, b.digest, None, None));
      } else if candidate.Some? && Candidate(h, s, id, candidate.value) {
        RefitKeeps(h, s, w, candidate.value);
      }
    }
  }

  lemma GotoRefused(h: Hashing, s: System, w: nat)
    requires Invariant(h, s) && w in s.workers && s.workers[w].job in s.jobs
    ensures Invariant(h, Goto(s, w, Raised(Refused)))
  {
    GotoKeeps(h, s, w, Raised(Refused));
  }

  lemma RefitKeeps(h: Hashing, s: System, w: nat, k: nat)
    requires WellHashed(h) && Invariant(h, s) && CollisionFree(h, s.hashed) && w in s.workers && s.workers[w].job in s.jobs
    requires s.jobs[s.workers[w].job].binding.request.previous.Some? && Candidate(h, s, s.workers[w].job, k)
    ensures var b := s.jobs[s.workers[w].job].binding;
            Invariant(h, AfterFit(s, w, FitOf(h, b.request, b.digest, Some(s.jobs[k].scorer.value), Some(s.jobs[k].binding.request))))
  {
    hide FitOf, Admitted, AfterFit, Invariant, Grounded, Derived, ScorerValid;
    var id := s.workers[w].job;
    var b := s.jobs[id].binding;
    ValidScorerIsPositive(h, s.jobs[k].scorer.value);
    RefitAgrees(h, s, id, k);
    FitKeeps(h, s, w, FitOf(h, b.request, b.digest, Some(s.jobs[k].scorer.value), Some(s.jobs[k].binding.request)));
  }

  // ----- Every step -----

  lemma SweepKeeps(h: Hashing, s: System, stale: set<nat>)
    requires WellHashed(h) && Invariant(h, s)
    ensures Invariant(h, Next(h, s, Sweep(stale)))
  {
    hide Bound, Admitted, ArtifactsOf, FitOk, WorkerOk;
    var t := Next(h, s, Sweep(stale));
    forall id | id in t.jobs ensures JobOk(h, t, id) {
      assert JobOk(h, s, id);
    }
    forall w | w in t.workers ensures WorkerOk(h, t, t.workers[w]) {
      WorkerStays(h, s, t, t.workers[w]);
    }
    forall id | id in t.fits ensures FitOk(h, t, id) {
      FitStays(h, s, t, id);
    }
  }

  lemma NextKeeps(h: Hashing, s: System, step: Step)
    requires WellHashed(h) && Invariant(h, s) && CollisionFree(h, s.hashed)
    ensures Invariant(h, Next(h, s, step))
  {
    hide Invariant, FitStep, AdvanceStep, SubmitStep, DeliverStep, Verdict;
    match step
    case Submit(id, q, kind) =>
      if id !in s.jobs && Verdict(q, kind).None? { SubmitKeeps(h, s, id, q, kind); }
    case Deliver(w, id, task) =>
      if w !in s.workers && id in s.jobs { DeliverKeeps(h, s, w, id, task); }
    case Fits(w, candidate) =>
      if AtWork(s, w) { FitStepKeeps(h, s, w, candidate); }
    case Advance(w) =>
      if w in s.workers && s.workers[w].job in s.jobs { AdvanceKeeps(h, s, w); }
    case Fail(w) => LeavingKeeps(h, s, w, Raised(Failed));
    case Abandon(w) => LeavingKeeps(h, s, w, Done);
    case Sweep(stale) => SweepKeeps(h, s, stale);
    case Cancel(id) => CancelKeeps(h, s, id);
    case Lose(key) => LoseKeeps(h, s, key);
  }

  lemma LeavingKeeps(h: Hashing, s: System, w: nat, stage: Stage)
    requires Invariant(h, s) && (stage == Raised(Failed) || stage == Done)
    ensures w in s.workers ==> Invariant(h, Goto(s, w, stage))
  {
    if w in s.workers {
      assert WorkerOk(h, s, s.workers[w]);
      GotoKeeps(h, s, w, stage);
    }
  }

  lemma CancelKeeps(h: Hashing, s: System, id: nat)
    requires Invariant(h, s)
    ensures id in s.jobs ==> Invariant(h, WithJob(s, id, s.jobs[id].(status := Canceled)))
  {
    if id in s.jobs {
      assert JobOk(h, s, id);
      RowKeeps(h, s, id, s.jobs[id].(status := Canceled));
    }
  }

  lemma LoseKeeps(h: Hashing, s: System, key: Key)
    requires Invariant(h, s)
    ensures Invariant(h, s.(objects := s.objects - {key}))
  {
    Carry(h, s, s.(objects := s.objects - {key}), None, None);
  }

  lemma HashedGrows(h: Hashing, s: System, step: Step)
    requires WellHashed(h)
    ensures s.hashed <= Next(h, s, step).hashed
  {
    hide FitStep, AdvanceStep, Verdict, Claimed;
    match step
    case Fits(w, candidate) =>
      if AtWork(s, w) { FitHashes(h, s, w, candidate); }
    case Advance(w) =>
      if w in s.workers && s.workers[w].job in s.jobs { AdvanceHashes(h, s, w); }
    case _ =>
  }

  lemma FitHashes(h: Hashing, s: System, w: nat, candidate: Option<nat>)
    requires WellHashed(h) && w in s.workers && s.workers[w].job in s.jobs
    ensures s.hashed <= FitStep(h, s, w, candidate).hashed
  {
    hide FitOf, Candidate, Bound;
  }

  lemma AdvanceHashes(h: Hashing, s: System, w: nat)
    requires w in s.workers && s.workers[w].job in s.jobs
    ensures AdvanceStep(h, s, w).hashed == s.hashed
  {
  }

  lemma {:induction false} RunKeeps(h: Hashing, s: System, steps: seq<Step>)
    requires WellHashed(h) && Invariant(h, s) && CollisionFree(h, Run(h, s, steps).hashed)
    ensures Invariant(h, Run(h, s, steps))
  {
    hide Next, Invariant;
    if steps != [] {
      var n := |steps| - 1;
      HashedGrows(h, Run(h, s, steps[..n]), steps[n]);
      RunKeeps(h, s, steps[..n]);
      NextKeeps(h, Run(h, s, steps[..n]), steps[n]);
    }
  }

  /** What a succeeded row must hold: the last scorer of a chain of fits that starts from the
      uniform prior and ends with the bound request, and exactly its two published artifacts. */
  ghost predicate Delivered(h: Hashing, s: System, j: Job, links: seq<Link>) {
    && Chain(h, links)
    && var last := Last(links);
       && last.request == j.binding.request && last.digest == j.binding.digest
       && j.scorer == Some(last.fitted.scorer)
       && j.artifacts == ArtifactsOf(h, j.binding, last.fitted)
       && Published(h, s, j.binding, last.fitted, PriorPack) && Published(h, s, j.binding, last.fitted, ScorerModel)
       && Posterior(last) == Learned(UNIFORM, Pool(links))
  }

  /** In every reachable state, a succeeded job holds the fit of the request it was accepted with. */
  lemma SucceededIsFitted(h: Hashing, limit: nat, steps: seq<Step>, id: nat)
    requires WellHashed(h)
    requires var s := Run(h, Empty(limit), steps); CollisionFree(h, s.hashed) && id in s.jobs && s.jobs[id].status == Succeeded
    ensures var s := Run(h, Empty(limit), steps);
            exists links :: Delivered(h, s, s.jobs[id], links)
    ensures var j := Run(h, Empty(limit), steps).jobs[id];
            Bound(h, j.binding) && Admitted(j.binding.request, j.binding.kind)
  {
    hide Run, Admitted, Bound, ArtifactsOf, Derived, Learned, Opens, Follows;
    RunKeeps(h, Empty(limit), steps);
    var s := Run(h, Empty(limit), steps);
    assert JobOk(h, s, id) && FitOk(h, s, id);
    var links: seq<Link> :| Chain(h, links) && Last(links) == s.fits[id];
    ChainAddsUp(h, links);
    assert Delivered(h, s, s.jobs[id], links);
  }

  /** An accepted request always matches its row, so a worker never refuses it for that. */
  lemma BindingNeverFails(h: Hashing, limit: nat, steps: seq<Step>, id: nat)
    requires WellHashed(h)
    requires var s := Run(h, Empty(limit), steps); CollisionFree(h, s.hashed) && id in s.jobs
    ensures Bound(h, Run(h, Empty(limit), steps).jobs[id].binding)
  {
    hide Run;
    RunKeeps(h, Empty(limit), steps);
    assert JobOk(h, Run(h, Empty(limit), steps), id);
  }

  // ----- One scorer per job, for good -----

  lemma ScorerStays(h: Hashing, s: System, step: Step, id: nat)
    requires WellHashed(h) && Invariant(h, s) && CollisionFree(h, s.hashed) && id in s.jobs && s.jobs[id].scorer.Some?
    ensures id in Next(h, s, step).jobs && Next(h, s, step).jobs[id].scorer == s.jobs[id].scorer
  {
    hide FitOf, Verdict, Candidate, Admitted, Bound, ArtifactsOf;
    assert JobOk(h, s, id);
    match step
    case Advance(w) =>
      if w in s.workers && s.workers[w].job == id {
        assert WorkerOk(h, s, s.workers[w]);
      }
    case _ =>
  }

  /** Once a job has stored a scorer, it never stores another: not after a failure, a recovery or a retry. */
  lemma {:induction false} ScorerNeverChanges(h: Hashing, s: System, steps: seq<Step>, id: nat)
    requires WellHashed(h) && Invariant(h, s) && CollisionFree(h, Run(h, s, steps).hashed) && id in s.jobs && s.jobs[id].scorer.Some?
    ensures id in Run(h, s, steps).jobs && Run(h, s, steps).jobs[id].scorer == s.jobs[id].scorer
  {
    hide Next, Invariant;
    if steps != [] {
      var n := |steps| - 1;
      HashedGrows(h, Run(h, s, steps[..n]), steps[n]);
      ScorerNeverChanges(h, s, steps[..n], id);
      RunKeeps(h, s, steps[..n]);
      ScorerStays(h, Run(h, s, steps[..n]), steps[n], id);
    }
  }

  /** Success is not final: of the service's own steps exactly a worker still recording a problem ends
      it; the other case is a status set to cancelled from outside. */
  lemma SucceededLeavesIff(h: Hashing, s: System, step: Step, id: nat)
    requires WellHashed(h) && Invariant(h, s) && id in s.jobs && s.jobs[id].status == Succeeded
    ensures Next(h, s, step).jobs[id].status != Succeeded <==>
            || step == Cancel(id)
            || (step.Advance? && step.worker in s.workers && s.workers[step.worker].job == id && s.workers[step.worker].stage.Raised?)
  {
    hide FitOf, Verdict, Candidate, Admitted, Bound, ArtifactsOf, JobOk, FitOk, AdvanceStep, FitStep, Claimed;
    match step
    case Advance(w) =>
      if w in s.workers && s.workers[w].job in s.jobs { AdvanceLeavesIff(h, s, w, id); }
    case Deliver(w, k, task) => ClaimKeepsFinal(s.jobs[id], task);
    case Fits(w, candidate) =>
      if AtWork(s, w) { FitTouchesNoJob(h, s, w, candidate); }
    case _ =>
  }

  lemma ClaimKeepsFinal(j: Job, task: string)
    ensures j.status in {Succeeded, Refused, Canceled} ==> Claimed(j, task) == j
  {
  }

  lemma FitTouchesNoJob(h: Hashing, s: System, w: nat, candidate: Option<nat>)
    requires WellHashed(h) && w in s.workers && s.workers[w].job in s.jobs
    ensures FitStep(h, s, w, candidate).jobs == s.jobs
  {
    hide FitOf, Candidate, Bound;
  }

  lemma AdvanceLeavesIff(h: Hashing, s: System, w: nat, id: nat)
    requires Invariant(h, s) && w in s.workers && s.workers[w].job in s.jobs && id in s.jobs && s.jobs[id].status == Succeeded
    ensures id in AdvanceStep(h, s, w).jobs
    ensures AdvanceStep(h, s, w).jobs[id].status != Succeeded <==> s.workers[w].job == id && s.workers[w].stage.Raised?
  {
    hide ArtifactsOf, KeyOf, JobOk, FitOk;
    assert WorkerOk(h, s, s.workers[w]);
  }
}
