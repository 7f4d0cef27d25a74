// Concrete runs of the competence service: a worker left alone succeeds, a success is lost,
// a lineage is counted twice, and an admitted request is refused by the fit.

module CompetenceScenarios {
  import opened Common
  import opened Ordering
  import opened CompetenceContract
  import opened CompetenceFit
  import opened CompetenceChains
  import opened CompetenceJobs
  import opened CompetenceReports

  // ----- Composing runs -----

  lemma {:induction false} RunJoin(h: Hashing, s: System, first: seq<Step>, second: seq<Step>)
    requires WellHashed(h)
    ensures Run(h, s, first + second) == Run(h, Run(h, s, first), second)
  {
    hide Next;
    if second == [] {
      assert first + second == first;
    } else {
      assert (first + second)[..|first + second| - 1] == first + second[..|second| - 1];
      RunJoin(h, s, first, second[..|second| - 1]);
    }
  }

  lemma RunOne(h: Hashing, s: System, step: Step)
    requires WellHashed(h)
    ensures Run(h, s, [step]) == Next(h, s, step)
  {
    hide Next;
    assert [step][..0] == [];
    assert Run(h, s, []) == s;
  }

  // ----- Undisturbed, a worker succeeds -----

  function Publishing(w: nat): seq<Step> {
    [Advance(w)] + [Advance(w)] + [Advance(w)]
  }

  predicate Publishable(h: Hashing, s: System, f: Fitted, kind: ArtifactKind) {
    && 0 < h.size(PayloadOf(f, kind)) <= s.limit
    && DescriptorOf(f, kind).payloadDigest == Digest(h, PayloadOf(f, kind))
    && DescriptorOf(f, kind).byteLength == h.size(PayloadOf(f, kind))
  }

  lemma PutStep(h: Hashing, s: System, w: nat, f: Fitted, kind: ArtifactKind)
    requires WellHashed(h) && w in s.workers && s.workers[w].job in s.jobs && s.workers[w].stage == Writing(f, kind)
    requires Publishable(h, s, f, kind)
    ensures var id := s.workers[w].job;
            Next(h, s, Advance(w)) == s.(workers := s.workers[w := Worker(id, Reading(f, kind))],
                                         objects := s.objects[KeyOf(h, s.jobs[id].binding, f, kind) := PayloadOf(f, kind)])
  {
    hide KeyOf, Digest;
  }

  lemma ReadStep(h: Hashing, s: System, w: nat, f: Fitted, kind: ArtifactKind)
    requires WellHashed(h) && w in s.workers && s.workers[w].job in s.jobs && s.workers[w].stage == Reading(f, kind)
    requires Publishable(h, s, f, kind)
    requires var key := KeyOf(h, s.jobs[s.workers[w].job].binding, f, kind); key in s.objects && s.objects[key] == PayloadOf(f, kind)
    ensures var id := s.workers[w].job;
            Next(h, s, Advance(w)) ==
            s.(workers := s.workers[w := Worker(id, Recording(f, kind))],
               published := s.published + {(KeyOf(h, s.jobs[id].binding, f, kind), PayloadOf(f, kind))})
  {
    hide Digest;
  }

  lemma RecordStep(h: Hashing, s: System, w: nat, f: Fitted, kind: ArtifactKind)
    requires WellHashed(h) && w in s.workers && s.workers[w].job in s.jobs && s.workers[w].stage == Recording(f, kind)
    requires var j := s.jobs[s.workers[w].job]; KeyOf(h, j.binding, f, kind).digest !in j.artifacts
    ensures var id := s.workers[w].job;
            var key := KeyOf(h, s.jobs[id].binding, f, kind);
            Next(h, s, Advance(w)) ==
            s.(workers := s.workers[w := Worker(id, if kind == PriorPack then Writing(f, ScorerModel) else Finishing(f))],
               jobs := s.jobs[id := s.jobs[id].(artifacts := s.jobs[id].artifacts[key.digest := key])])
  {
    hide KeyOf;
  }

  /** Three steps put an object, read it back and record it. */
  lemma PublishOne(h: Hashing, s: System, w: nat, f: Fitted, kind: ArtifactKind)
    requires WellHashed(h) && w in s.workers && s.workers[w].job in s.jobs && s.workers[w].stage == Writing(f, kind)
    requires Publishable(h, s, f, kind)
    requires var j := s.jobs[s.workers[w].job]; var key := KeyOf(h, j.binding, f, kind); key.digest !in j.artifacts
    ensures var t := Run(h, s, Publishing(w));
            var id := s.workers[w].job;
            var key := KeyOf(h, s.jobs[id].binding, f, kind);
            && t.workers == s.workers[w := Worker(id, if kind == PriorPack then Writing(f, ScorerModel) else Finishing(f))]
            && t.jobs == s.jobs[id := s.jobs[id].(artifacts := s.jobs[id].artifacts[key.digest := key])]
            && t.limit == s.limit && t.hashed == s.hashed
  {
    var step := Advance(w);
    var s1 := Next(h, s, step);
    var s2 := Next(h, s1, step);
    PutStep(h, s, w, f, kind);
    ReadStep(h, s1, w, f, kind);
    RecordStep(h, s2, w, f, kind);
    hide *;
    RunJoin(h, s, [step] + [step], [step]);
    RunJoin(h, s, [step], [step]);
    RunOne(h, s, step);
    RunOne(h, s1, step);
    RunOne(h, s2, step);
  }

  lemma PublishBoth(h: Hashing, s: System, w: nat, f: Fitted)
    requires WellHashed(h) && w in s.workers && s.workers[w].job in s.jobs && s.workers[w].stage == Writing(f, PriorPack)
    requires Publishable(h, s, f, PriorPack) && Publishable(h, s, f, ScorerModel)
    requires s.jobs[s.workers[w].job].artifacts == map[] && Digest(h, f.priorPack) != Digest(h, f.model)
    ensures var t := Run(h, Run(h, s, Publishing(w)), Publishing(w));
            var id := s.workers[w].job;
            && t.workers == s.workers[w := Worker(id, Finishing(f))] && id in t.jobs
            && t.jobs == s.jobs[id := s.jobs[id].(artifacts := t.jobs[id].artifacts)]
            && t.limit == s.limit && t.hashed == s.hashed
  {
    hide Run, Publishing;
    PublishOne(h, s, w, f, PriorPack);
    PublishOne(h, Run(h, s, Publishing(w)), w, f, ScorerModel);
  }

  /** The two payloads can be stored, under different digests. */
  predicate Storable(h: Hashing, limit: nat, f: Fitted) {
    0 < h.size(f.priorPack) <= limit && 0 < h.size(f.model) <= limit && h.hex(f.priorPack) != h.hex(f.model)
  }

  /** A fit's descriptors match its payloads, and the two payloads differ. */
  lemma FittedIsPublishable(h: Hashing, q: Request, digest: string, scorer: Option<Scorer>, earlier: Option<Request>, f: Fitted)
    requires PriorScorer(h, scorer) && FitOf(h, q, digest, scorer, earlier) == Ok(f)
    ensures f.scorer.priorPack == Describe(h, f.priorPack, PriorPack, PRIOR_MEDIA)
    ensures f.scorer.model == Describe(h, f.model, ScorerModel, SCORER_MEDIA)
    ensures h.hex(f.priorPack) != h.hex(f.model) ==> Digest(h, f.priorPack) != Digest(h, f.model)
  {
    hide FitOf;
    FittedFacts(h, q, digest, scorer, earlier);
    assert Digest(h, f.priorPack)[7..] == h.hex(f.priorPack) && Digest(h, f.model)[7..] == h.hex(f.model);
  }

  lemma SizesSuffice(h: Hashing, s: System, f: Fitted)
    requires Storable(h, s.limit, f)
    requires f.scorer.priorPack == Describe(h, f.priorPack, PriorPack, PRIOR_MEDIA)
    requires f.scorer.model == Describe(h, f.model, ScorerModel, SCORER_MEDIA)
    ensures Publishable(h, s, f, PriorPack) && Publishable(h, s, f, ScorerModel)
  {
  }

  /** The scorer and the request behind it that a job's fit starts from: none, or those of a
      succeeded job the request names. */
  ghost predicate Start(h: Hashing, s: System, q: Request, candidate: Option<nat>, scorer: Option<Scorer>, earlier: Option<Request>) {
    if q.previous.None? then scorer == None && earlier == None
    else
      && candidate.Some? && candidate.value in s.jobs
      && var other := s.jobs[candidate.value];
         && other.status == Succeeded && other.scorer.Some? && ScorerValid(h, other.scorer.value)
         && other.binding.tenant == q.scope.tenant && other.binding.project == q.scope.project
         && Names(q.previous.value, other.scorer.value)
         && scorer == other.scorer && earlier == Some(other.binding.request)
  }

  lemma StartFit(h: Hashing, s: System, w: nat, candidate: Option<nat>, scorer: Option<Scorer>, earlier: Option<Request>, f: Fitted)
    requires WellHashed(h) && AtWork(s, w) && s.workers[w].stage == Fitting && candidate != Some(s.workers[w].job)
    requires PriorScorer(h, scorer)
    requires var b := s.jobs[s.workers[w].job].binding;
             && Bound(h, b) && Start(h, s, b.request, candidate, scorer, earlier)
             && FitOf(h, b.request, b.digest, scorer, earlier) == Ok(f)
    ensures var t := Next(h, s, Fits(w, candidate));
            && t.jobs == s.jobs && t.limit == s.limit && t.hashed == s.hashed + {f.model, f.priorPack}
            && t.workers == s.workers[w := Worker(s.workers[w].job, Writing(f, PriorPack))]
  {
    hide FitOf, ScorerValid;
  }

  lemma EndFit(h: Hashing, s: System, w: nat, f: Fitted)
    requires WellHashed(h) && w in s.workers && s.workers[w].job in s.jobs && s.workers[w].stage == Finishing(f)
    requires s.jobs[s.workers[w].job].status == Running
    ensures var id := s.workers[w].job;
            var t := Next(h, s, Advance(w));
            && id in t.jobs && t.jobs == s.jobs[id := t.jobs[id]] && t.jobs[id].binding == s.jobs[id].binding
            && t.jobs[id].status == Succeeded && t.jobs[id].scorer == Some(f.scorer)
            && t.workers == s.workers[w := Worker(id, Done)] && t.limit == s.limit && t.hashed == s.hashed
  {
  }

  function WholeFit(w: nat, candidate: Option<nat>): seq<Step> {
    [Fits(w, candidate)] + Publishing(w) + Publishing(w) + [Advance(w)]
  }

  /** A running job that can be fitted and published is, by a worker left alone. */
  lemma LoneWorkerSucceeds(
    h: Hashing, s: System, w: nat, candidate: Option<nat>, scorer: Option<Scorer>, earlier: Option<Request>, f: Fitted)
    requires WellHashed(h) && AtWork(s, w) && s.workers[w].stage == Fitting && candidate != Some(s.workers[w].job)
    requires PriorScorer(h, scorer) && Storable(h, s.limit, f)
    requires var j := s.jobs[s.workers[w].job];
             && j.status == Running && j.artifacts == map[] && Bound(h, j.binding)
             && Start(h, s, j.binding.request, candidate, scorer, earlier)
             && FitOf(h, j.binding.request, j.binding.digest, scorer, earlier) == Ok(f)
    ensures var id := s.workers[w].job;
            var t := Run(h, s, WholeFit(w, candidate));
            && id in t.jobs && t.jobs == s.jobs[id := t.jobs[id]] && t.jobs[id].binding == s.jobs[id].binding
            && t.jobs[id].status == Succeeded && t.jobs[id].scorer == Some(f.scorer)
            && t.workers == s.workers[w := Worker(id, Done)] && t.limit == s.limit
            && t.hashed == s.hashed + {f.model, f.priorPack}
  {
    hide FitOf, Bound, Run, Next, Publishable, Start, Publishing;
    var b := s.jobs[s.workers[w].job].binding;
    FittedIsPublishable(h, b.request, b.digest, scorer, earlier, f);
    StartFit(h, s, w, candidate, scorer, earlier, f);
    var fitted := Next(h, s, Fits(w, candidate));
    SizesSuffice(h, fitted, f);
    PublishBoth(h, fitted, w, f);
    var published := Run(h, Run(h, fitted, Publishing(w)), Publishing(w));
    EndFit(h, published, w, f);
    RunOne(h, s, Fits(w, candidate));
    RunJoin(h, s, [Fits(w, candidate)], Publishing(w));
    RunJoin(h, s, [Fits(w, candidate)] + Publishing(w), Publishing(w));
    RunJoin(h, s, [Fits(w, candidate)] + Publishing(w) + Publishing(w), [Advance(w)]);
    RunOne(h, published, Advance(w));
  }

  // ----- Success can be lost -----

  function TwoDeliveries(q: Request): seq<Step> {
    [Submit(0, q, Fit)] + [Deliver(0, 0, "first")] + [Deliver(1, 0, "second")]
  }

  lemma TwoWorkersMeet(h: Hashing, limit: nat, q: Request)
    requires WellHashed(h) && Verdict(q, Fit).None?
    ensures var s := Run(h, Empty(limit), TwoDeliveries(q));
            && s.workers == map[0 := Worker(0, Fitting), 1 := Worker(0, Fitting)] && s.limit == limit && 0 in s.jobs
            && s.jobs[0].status == Running && s.jobs[0].artifacts == map[]
            && s.jobs[0].binding == Binding(Fit, q, Digest(h, RequestValue(q)), q.scope.tenant, q.scope.project)
  {
    hide Verdict;
    var s0 := Empty(limit);
    var s1 := Next(h, s0, Submit(0, q, Fit));
    var s2 := Next(h, s1, Deliver(0, 0, "first"));
    RunJoin(h, s0, [Submit(0, q, Fit)] + [Deliver(0, 0, "first")], [Deliver(1, 0, "second")]);
    RunJoin(h, s0, [Submit(0, q, Fit)], [Deliver(0, 0, "first")]);
    RunOne(h, s0, Submit(0, q, Fit));
    RunOne(h, s1, Deliver(0, 0, "first"));
    RunOne(h, s2, Deliver(1, 0, "second"));
  }

  lemma LateFailure(h: Hashing, s: System)
    requires WellHashed(h) && 0 in s.jobs && s.jobs[0].status == Succeeded
    requires 1 in s.workers && s.workers[1] == Worker(0, Fitting)
    ensures var t := Next(h, Next(h, s, Fail(1)), Advance(1));
            0 in t.jobs && t.jobs[0].status == Failed && t.jobs[0].scorer == s.jobs[0].scorer
  {
  }

  /** So a job can reach succeeded and then fail: a second worker proceeds on a running job, and
      the failure it meets is recorded over the success of the first. The scorer stays stored. */
  lemma SuccessCanBeLost(h: Hashing, limit: nat, q: Request, f: Fitted)
    requires WellHashed(h) && Verdict(q, Fit).None? && FitOf(h, q, Digest(h, RequestValue(q)), None, None) == Ok(f)
    requires Storable(h, limit, f)
    ensures var success := Run(h, Empty(limit), TwoDeliveries(q) + WholeFit(0, None));
            0 in success.jobs && success.jobs[0].status == Succeeded
    ensures var end := Run(h, Empty(limit), TwoDeliveries(q) + WholeFit(0, None) + [Fail(1)] + [Advance(1)]);
            0 in end.jobs && end.jobs[0].status == Failed && end.jobs[0].scorer == Some(f.scorer)
  {
    hide FitOf, Verdict, Run, Next, Admitted, WholeFit, TwoDeliveries;
    VerdictMeansAdmitted(q, Fit);
    AdmittedHeader(q, Fit);
    TwoWorkersMeet(h, limit, q);
    var met := Run(h, Empty(limit), TwoDeliveries(q));
    LoneWorkerSucceeds(h, met, 0, None, None, None, f);
    var done := Run(h, met, WholeFit(0, None));
    LateFailure(h, done);
    RunJoin(h, Empty(limit), TwoDeliveries(q), WholeFit(0, None));
    RunJoin(h, Empty(limit), TwoDeliveries(q) + WholeFit(0, None), [Fail(1)]);
    RunJoin(h, Empty(limit), TwoDeliveries(q) + WholeFit(0, None) + [Fail(1)], [Advance(1)]);
    RunOne(h, done, Fail(1));
    RunOne(h, Next(h, done, Fail(1)), Advance(1));
  }

  // ----- A job from submission to success -----

  function Lifecycle(id: nat, q: Request, kind: Kind, candidate: Option<nat>): seq<Step> {
    [Submit(id, q, kind)] + [Deliver(id, id, "worker")] + WholeFit(id, candidate)
  }

  lemma Accepted(h: Hashing, s: System, id: nat, q: Request, kind: Kind)
    requires WellHashed(h) && id !in s.jobs && id !in s.workers
    requires Verdict(q, kind).None? && !Known(s, q.scope.tenant, q.operationId)
    ensures var t := Next(h, Next(h, s, Submit(id, q, kind)), Deliver(id, id, "worker"));
            && id in t.jobs && t.jobs == s.jobs[id := t.jobs[id]] && t.limit == s.limit
            && t.jobs[id].status == Running && t.jobs[id].artifacts == map[]
            && t.jobs[id].binding == Binding(kind, q, Digest(h, RequestValue(q)), q.scope.tenant, q.scope.project)
            && t.workers == s.workers[id := Worker(id, Fitting)] && t.hashed == s.hashed + {RequestValue(q)}
  {
    hide Verdict, Known;
  }

  lemma StartStays(h: Hashing, s: System, t: System, id: nat, q: Request, candidate: Option<nat>, scorer: Option<Scorer>, earlier: Option<Request>)
    requires Start(h, s, q, candidate, scorer, earlier) && id !in s.jobs && id in t.jobs && t.jobs == s.jobs[id := t.jobs[id]]
    ensures Start(h, t, q, candidate, scorer, earlier)
  {
    hide ScorerValid;
  }

  /** An admitted request whose fit starts from a known scorer becomes a succeeded job. */
  lemma JobSucceeds(h: Hashing, s: System, id: nat, q: Request, kind: Kind, candidate: Option<nat>,
                    scorer: Option<Scorer>, earlier: Option<Request>, f: Fitted)
    requires WellHashed(h) && id !in s.jobs && id !in s.workers && PriorScorer(h, scorer) && Storable(h, s.limit, f)
    requires Verdict(q, kind).None? && !Known(s, q.scope.tenant, q.operationId)
    requires Start(h, s, q, candidate, scorer, earlier) && candidate != Some(id)
    requires FitOf(h, q, Digest(h, RequestValue(q)), scorer, earlier) == Ok(f)
    ensures var t := Run(h, s, Lifecycle(id, q, kind, candidate));
            && id in t.jobs && t.jobs == s.jobs[id := t.jobs[id]] && t.limit == s.limit
            && t.jobs[id].status == Succeeded && t.jobs[id].scorer == Some(f.scorer)
            && t.jobs[id].binding == Binding(kind, q, Digest(h, RequestValue(q)), q.scope.tenant, q.scope.project)
            && t.workers == s.workers[id := Worker(id, Done)]
            && t.hashed == s.hashed + {RequestValue(q), f.model, f.priorPack}
  {
    hide FitOf, Verdict, Run, Next, Known, Admitted, WholeFit, ScorerValid;
    Accepted(h, s, id, q, kind);
    VerdictMeansAdmitted(q, kind);
    AdmittedHeader(q, kind);
    var submitted := Next(h, s, Submit(id, q, kind));
    var ready := Next(h, submitted, Deliver(id, id, "worker"));
    StartStays(h, s, ready, id, q, candidate, scorer, earlier);
    hide Start;
    LoneWorkerSucceeds(h, ready, id, candidate, scorer, earlier, f);
    RunOne(h, s, Submit(id, q, kind));
    RunOne(h, submitted, Deliver(id, id, "worker"));
    RunJoin(h, s, [Submit(id, q, kind)], [Deliver(id, id, "worker")]);
    RunJoin(h, s, [Submit(id, q, kind)] + [Deliver(id, id, "worker")], WholeFit(id, candidate));
  }

  // ----- A lineage counted twice by three jobs -----

  function ThreeJobs(a: Request, b: Request, c: Request): seq<Step> {
    Lifecycle(0, a, Fit, None) + Lifecycle(1, b, Refit, Some(0)) + Lifecycle(2, c, Refit, Some(1))
  }

  /** A link whose request was accepted as it stands. */
  ghost predicate Accepts(h: Hashing, limit: nat, l: Link, kind: Kind) {
    Verdict(l.request, kind).None? && l.digest == Digest(h, RequestValue(l.request)) && Storable(h, limit, l.fitted)
  }

  ghost predicate SucceededWith(s: System, id: nat, l: Link) {
    id in s.jobs && s.jobs[id].status == Succeeded && s.jobs[id].scorer == Some(l.fitted.scorer) && s.jobs[id].binding.request == l.request
  }

  /** What a job has hashed once it succeeded. */
  function PayloadsOf(l: Link): set<Payload> {
    {RequestValue(l.request), l.fitted.model, l.fitted.priorPack}
  }

  lemma JobsKnow(s: System, tenant: string, operationId: string)
    requires forall id :: id in s.jobs ==> s.jobs[id].binding.request.operationId != operationId
    ensures !Known(s, tenant, operationId)
  {
  }

  /** The start of a refit is the scorer of a job that succeeded with the link before it. */
  lemma StartsFrom(h: Hashing, s: System, a: Link, b: Link, k: nat)
    requires Follows(h, a, b) && SucceededWith(s, k, a) && ScorerValid(h, a.fitted.scorer)
    requires s.jobs[k].binding.tenant == a.request.scope.tenant && s.jobs[k].binding.project == a.request.scope.project
    ensures Start(h, s, b.request, Some(k), Some(a.fitted.scorer), Some(a.request))
  {
    hide FitOf, ScorerValid;
    StepFacts(h, a, b);
  }

  /** Any chain of a fit, a refit and a second refit of the first evidence is a run of three jobs
      that all succeed, the last counting that evidence twice. */
  lemma ThreeJobsCountTwice(h: Hashing, limit: nat, a: Link, b: Link, c: Link)
    requires Opens(h, a) && Follows(h, a, b) && Follows(h, b, c)
    requires Accepts(h, limit, a, Fit) && Accepts(h, limit, b, Refit) && Accepts(h, limit, c, Refit)
    requires c.request.evidence == a.request.evidence
    requires a.request.operationId != b.request.operationId && c.request.operationId !in {a.request.operationId, b.request.operationId}
    ensures var s := Run(h, Empty(limit), ThreeJobs(a.request, b.request, c.request));
            && SucceededWith(s, 0, a) && SucceededWith(s, 1, b) && SucceededWith(s, 2, c)
            && s.hashed == PayloadsOf(a) + PayloadsOf(b) + PayloadsOf(c)
    ensures Posterior(c).alpha == 1.0 + 2.0 * Sum(Credit, a.request.evidence) + Sum(Credit, b.request.evidence)
  {
    hide FitOf, Verdict, Run, Next, Known, Lifecycle, Admitted, ScorerValid, Start, InOrder, Lineages, Sum;
    OpeningFacts(h, a);
    StepFacts(h, a, b);
    StepFacts(h, b, c);
    ValidScorerIsPositive(h, a.fitted.scorer);
    ValidScorerIsPositive(h, b.fitted.scorer);
    FirstStart(h, a.request);
    JobsKnow(Empty(limit), a.request.scope.tenant, a.request.operationId);
    JobSucceeds(h, Empty(limit), 0, a.request, Fit, None, None, None, a.fitted);
    var s1 := Run(h, Empty(limit), Lifecycle(0, a.request, Fit, None));
    StartsFrom(h, s1, a, b, 0);
    JobsKnow(s1, b.request.scope.tenant, b.request.operationId);
    JobSucceeds(h, s1, 1, b.request, Refit, Some(0), Some(a.fitted.scorer), Some(a.request), b.fitted);
    var s2 := Run(h, s1, Lifecycle(1, b.request, Refit, Some(0)));
    StartsFrom(h, s2, b, c, 1);
    JobsKnow(s2, c.request.scope.tenant, c.request.operationId);
    JobSucceeds(h, s2, 2, c.request, Refit, Some(1), Some(b.fitted.scorer), Some(b.request), c.fitted);
    RunJoin(h, Empty(limit), Lifecycle(0, a.request, Fit, None), Lifecycle(1, b.request, Refit, Some(0)));
    RunJoin(h, Empty(limit), Lifecycle(0, a.request, Fit, None) + Lifecycle(1, b.request, Refit, Some(0)),
            Lifecycle(2, c.request, Refit, Some(1)));
  }

  /** A first fit starts from nothing. */
  lemma FirstStart(h: Hashing, q: Request)
    requires Verdict(q, Fit).None?
    ensures forall s :: Start(h, s, q, None, None, None)
  {
    hide Verdict, Admitted;
    VerdictMeansAdmitted(q, Fit);
    AdmittedHeader(q, Fit);
  }

  // ----- Concrete requests -----

  function Repeat(c: char): (s: string)
    ensures |s| == 64 && forall i :: 0 <= i < 64 ==> s[i] == c
  {
    seq(64, _ => c)
  }

  function Address(c: char): string {
    "sha256:" + Repeat(c)
  }

  const SCOPE := Scope("tenant", "project", Address('a'), "candidate", "lineage")

  function Trained(lineage: string, survived: bool): Evidence {
    Evidence(lineage, Training, "episode", Address('b'), survived, ["source"], None)
  }

  function Held(lineage: string, decision: string): Evidence {
    Evidence(lineage, HeldOut, "episode", Address('b'), true, ["source"],
             Some(Selection(decision, "policy", 0, 0, 1.0, 1.0, 1.0, 1.0, 1.0)))
  }

  function Ask(kind: Kind, operationId: string, evidence: seq<Evidence>, decision: string, previous: Option<PreviousScorer>): Request {
    Request(CONTRACT, kind, operationId, SCOPE, Address('c'), Address('d'), evidence, [decision], ["source"], previous,
            0.5, Local, true, false)
  }

  lemma NotBlank(s: string)
    requires s != "" && !IsSpace(s[0])
    ensures !Blank(s)
  {
  }

  lemma AddressIsDigest(c: char)
    requires '0' <= c <= '9' || 'a' <= c <= 'f'
    ensures IsDigest(Address(c))
  {
    assert Address(c)[7..] == Repeat(c);
  }

  lemma ItemsAdmitted(lineage: string, survived: bool, decision: string)
    requires lineage != "" && !IsSpace(lineage[0]) && decision != "" && !IsSpace(decision[0])
    ensures ItemAdmitted(Trained(lineage, survived)) && ItemAdmitted(Held(lineage, decision))
  {
    hide IsDigest, Blank, Address;
    AddressIsDigest('b');
    NotBlank(lineage);
    NotBlank(decision);
    NotBlank("episode");
  }

  /** One training item and held-out items that all use one decision. */
  ghost predicate OneDecision(evidence: seq<Evidence>, decision: string) {
    && |evidence| >= 2 && evidence[0].lineage != "" && evidence[0] == Trained(evidence[0].lineage, evidence[0].survived)
    && forall i :: 1 <= i < |evidence| ==> evidence[i] == Held(evidence[i].lineage, decision)
  }

  ghost predicate Named(previous: PreviousScorer) {
    !Blank(previous.scorerId) && !Blank(previous.version) && IsDigest(previous.modelId) && !Blank(previous.priorPackId)
  }

  lemma AskAdmitted(kind: Kind, operationId: string, evidence: seq<Evidence>, decision: string, previous: Option<PreviousScorer>)
    requires operationId != "" && !IsSpace(operationId[0]) && |operationId| <= 128 && decision != "" && !IsSpace(decision[0])
    requires OneDecision(evidence, decision) && OneLineageEach(evidence)
    requires forall i :: 0 <= i < |evidence| ==> evidence[i].lineage != "" && !IsSpace(evidence[i].lineage[0])
    requires (kind == Refit <==> previous.Some?) && (previous.Some? ==> Named(previous.value))
    ensures Admitted(Ask(kind, operationId, evidence, decision, previous), kind)
  {
    hide IsDigest, Blank, Address, ItemAdmitted;
    var q := Ask(kind, operationId, evidence, decision, previous);
    AddressIsDigest('a');
    AddressIsDigest('c');
    AddressIsDigest('d');
    assert Address('c') != Address('d') by { AddressesDiffer('c', 'd'); }
    NotBlank(operationId);
    NotBlank("candidate");
    NotBlank("lineage");
    forall i | 0 <= i < |evidence| ensures ItemAdmitted(evidence[i]) {
      ItemsAdmitted(evidence[i].lineage, evidence[i].survived, decision);
    }
    assert evidence[0].role == Training && evidence[1].role == HeldOut;
    forall x ensures x in q.decisionRefs <==> exists i :: 0 <= i < |evidence| && DecidedBy(evidence[i], x) {
      assert DecidedBy(evidence[1], decision);
    }
    forall x ensures x in q.sourceRefs <==> exists i :: 0 <= i < |evidence| && x in evidence[i].sourceRefs {
      assert "source" in evidence[0].sourceRefs;
    }
  }

  lemma AddressesDiffer(c: char, d: char)
    requires c != d
    ensures Address(c) != Address(d)
  {
    assert Address(c)[7] == c && Address(d)[7] == d;
  }

  const PAIR: seq<Evidence> := [Trained("x", true), Held("y", "decision")]
  const SHARED: seq<Evidence> := [Trained("x", true), Held("y", "decision"), Held("z", "decision")]

  /** A request whose held-out items share a decision is admitted and then refused by the fitter;
      without the second of them it is fitted. */
  lemma SharedDecisionRefused(h: Hashing, digest: string)
    requires WellHashed(h)
    ensures Verdict(Ask(Fit, "fit", SHARED, "decision", None), Fit).None?
    ensures FitOf(h, Ask(Fit, "fit", SHARED, "decision", None), digest, None, None).Err?
    ensures Verdict(Ask(Fit, "fit", PAIR, "decision", None), Fit).None?
    ensures FitOf(h, Ask(Fit, "fit", PAIR, "decision", None), digest, None, None).Ok?
  {
    hide Admitted, FitOf, Verdict;
    AskAdmitted(Fit, "fit", SHARED, "decision", None);
    AskAdmitted(Fit, "fit", PAIR, "decision", None);
    VerdictMeansAdmitted(Ask(Fit, "fit", SHARED, "decision", None), Fit);
    VerdictMeansAdmitted(Ask(Fit, "fit", PAIR, "decision", None), Fit);
    HeldOutCounts();
    AdmittedFitSucceedsIff(h, Ask(Fit, "fit", SHARED, "decision", None), Fit, digest, None, None);
    AdmittedFitSucceedsIff(h, Ask(Fit, "fit", PAIR, "decision", None), Fit, digest, None, None);
  }

  lemma HeldOutCounts()
    ensures |Chosen(PAIR, HeldOut)| == 1 && |Chosen(SHARED, HeldOut)| == 2
  {
    assert SHARED[..2] == PAIR && PAIR[..1] == [Trained("x", true)] && [Trained("x", true)][..0] == [];
    assert |Chosen([Trained("x", true)], HeldOut)| == 0;
  }

  const FAILED: seq<Evidence> := [Trained("x", false), Held("y", "decision")]

  lemma FailedCounts()
    ensures Survivors(FAILED) == 0 && Failures(FAILED) == 1 && HeldOutcomes(FAILED) == 1.0 && HeldComplements(FAILED) == 0.0
    ensures |Chosen(FAILED, HeldOut)| == 1
  {
    var first, held := [FAILED[0]], FAILED[1];
    var none: seq<Evidence> := [];
    assert none + [FAILED[0]] == first && first + [held] == FAILED && FAILED[..1] == first && first[..0] == none;
    CountsGrow(none, FAILED[0]);
    CountsGrow(first, held);
    assert Survivors(none) == 0 && Failures(none) == 0;
    hide Survivors, Failures;
    assert HeldOutcomes(first) == 0.0 && HeldComplements(first) == 0.0 && Chosen(first, HeldOut) == none;
  }

  /** A fit on one failed training item: its prior is Beta(1, 2), its posterior Beta(2, 2). */
  lemma ConcreteFailureCounts(h: Hashing, digest: string)
    requires WellHashed(h)
    ensures var q := Ask(Fit, "fit", FAILED, "decision", None);
            var r := FitOf(h, q, digest, None, None);
            Verdict(q, Fit).None? && r.Ok? && r.value.scorer.prior == Beta(1.0, 2.0) && r.value.scorer.posterior == Beta(2.0, 2.0)
  {
    var q := Ask(Fit, "fit", FAILED, "decision", None);
    AskAdmitted(Fit, "fit", FAILED, "decision", None);
    hide Admitted, FitOf, Verdict, Survivors, Failures, HeldOutcomes, HeldComplements, Chosen;
    FailedCounts();
    VerdictMeansAdmitted(q, Fit);
    AdmittedFitSucceedsIff(h, q, Fit, digest, None, None);
    FitCounts(h, q, digest, None, None);
  }

  // ----- Concrete runs -----

  /** Tells the nine payloads of the runs below apart. */
  function Mark(p: Payload): char {
    match p
    case RequestValue(q) => if q.operationId == "fit" then '1' else if q.operationId == "refit" then '2' else '3'
    case ModelValue(_, _, d, _, _, _, _, _, _, _, _, _) => if d == Address('1') then '4' else if d == Address('2') then '5' else '6'
    case PriorValue(d, _, _, _, _, _) => if d == Address('1') then '7' else if d == Address('2') then '8' else '9'
    case ScopeValue(_) => 'a'
    case ReceiptValue(_) => 'b'
  }

  const MARKING := Hashing(p => Repeat(Mark(p)), p => 1)

  lemma MarkingIsWellHashed()
    ensures WellHashed(MARKING)
  {
    forall p ensures IsHex64(MARKING.hex(p)) {
    }
  }

  lemma MarkedStorable(q: Request, digest: string, scorer: Option<Scorer>, earlier: Option<Request>, f: Fitted)
    requires PriorScorer(MARKING, scorer) && FitOf(MARKING, q, digest, scorer, earlier) == Ok(f)
    ensures Storable(MARKING, 1, f)
    ensures f.model.ModelValue? && f.model.requestDigest == digest && f.priorPack.PriorValue? && f.priorPack.requestDigest == digest
  {
    hide FitOf, ScorerValid;
    FittedFacts(MARKING, q, digest, scorer, earlier);
    assert MARKING.hex(f.priorPack)[0] != MARKING.hex(f.model)[0];
  }

  /** A worker's success on a concrete request is overwritten by another worker's failure. */
  lemma ConcreteSuccessLost()
    ensures WellHashed(MARKING)
    ensures var q := Ask(Fit, "fit", PAIR, "decision", None);
            var success := Run(MARKING, Empty(1), TwoDeliveries(q) + WholeFit(0, None));
            var end := Run(MARKING, Empty(1), TwoDeliveries(q) + WholeFit(0, None) + [Fail(1)] + [Advance(1)]);
            && 0 in success.jobs && success.jobs[0].status == Succeeded
            && 0 in end.jobs && end.jobs[0].status == Failed && end.jobs[0].scorer.Some?
  {
    hide FitOf, Verdict, Run, WholeFit, TwoDeliveries;
    MarkingIsWellHashed();
    var q := Ask(Fit, "fit", PAIR, "decision", None);
    var digest := Digest(MARKING, RequestValue(q));
    SharedDecisionRefused(MARKING, digest);
    var f := FitOf(MARKING, q, digest, None, None).value;
    MarkedStorable(q, digest, None, None, f);
    SuccessCanBeLost(MARKING, 1, q, f);
  }

  const OTHERS: seq<Evidence> := [Trained("u", true), Held("v", "another")]

  lemma PairFacts()
    ensures OneDecision(PAIR, "decision") && OneLineageEach(PAIR) && OneDecision(OTHERS, "another") && OneLineageEach(OTHERS)
    ensures Lineages(PAIR) == {"x", "y"} && Lineages(OTHERS) == {"u", "v"}
    ensures Sum(Credit, PAIR) == 2.0 && Sum(Credit, OTHERS) == 2.0
    ensures |Chosen(PAIR, HeldOut)| == 1 && |Chosen(OTHERS, HeldOut)| == 1
  {
    PairSums("x", "y", "decision");
    PairSums("u", "v", "another");
  }

  lemma PairSums(t: string, u: string, decision: string)
    ensures var s := [Trained(t, true), Held(u, decision)];
            Lineages(s) == {t, u} && Sum(Credit, s) == 2.0 && |Chosen(s, HeldOut)| == 1
  {
    var s := [Trained(t, true), Held(u, decision)];
    var first := [Trained(t, true)];
    assert s[..1] == first && first[..0] == [];
    assert Lineages(first) == {t} && Sum(Credit, first) == 1.0 && Chosen(first, HeldOut) == [];
  }

  /** The opening fit of the run, with a first decision. */
  lemma OpeningLink() returns (a: Link)
    ensures WellHashed(MARKING) && Opens(MARKING, a) && Accepts(MARKING, 1, a, Fit) && Admitted(a.request, Fit)
    ensures a.request == Ask(Fit, "fit", PAIR, "decision", None) && a.digest == Address('1')
    ensures Mark(a.fitted.model) == '4' && Mark(a.fitted.priorPack) == '7'
  {
    hide FitOf, Verdict, Admitted;
    MarkingIsWellHashed();
    var q := Ask(Fit, "fit", PAIR, "decision", None);
    SharedDecisionRefused(MARKING, Address('1'));
    VerdictMeansAdmitted(q, Fit);
    a := Link(q, Address('1'), FitOf(MARKING, q, Address('1'), None, None).value);
    MarkedStorable(q, Address('1'), None, None, a.fitted);
  }

  lemma ScorerIsNamed(h: Hashing, s: Scorer)
    requires ScorerValid(h, s)
    ensures Named(NameOf(s))
  {
    hide Blank, IsDigest;
  }

  /** A refit of it with other evidence. */
  lemma RefitLink(a: Link) returns (b: Link)
    requires WellHashed(MARKING) && Opens(MARKING, a) && a.request == Ask(Fit, "fit", PAIR, "decision", None)
    ensures Follows(MARKING, a, b) && Accepts(MARKING, 1, b, Refit) && Admitted(b.request, Refit)
    ensures b.request == Ask(Refit, "refit", OTHERS, "another", Some(NameOf(a.fitted.scorer))) && b.digest == Address('2')
    ensures Mark(b.fitted.model) == '5' && Mark(b.fitted.priorPack) == '8'
  {
    hide FitOf, Verdict, Admitted, ScorerValid, Lineages, Chosen, Sum, Named, InOrder;
    OpeningFacts(MARKING, a);
    ScorerIsNamed(MARKING, a.fitted.scorer);
    ValidScorerIsPositive(MARKING, a.fitted.scorer);
    PairFacts();
    var q := Ask(Refit, "refit", OTHERS, "another", Some(NameOf(a.fitted.scorer)));
    AskAdmitted(Refit, "refit", OTHERS, "another", Some(NameOf(a.fitted.scorer)));
    VerdictMeansAdmitted(q, Refit);
    AdmittedFitSucceedsIff(MARKING, q, Refit, Address('2'), Some(a.fitted.scorer), Some(a.request));
    AddressesDiffer('2', '1');
    b := Link(q, Address('2'), FitOf(MARKING, q, Address('2'), Some(a.fitted.scorer), Some(a.request)).value);
    MarkedStorable(q, Address('2'), Some(a.fitted.scorer), Some(a.request), b.fitted);
  }

  /** The same evidence again, refitted after the other. */
  lemma ReturnLink(a: Link, b: Link) returns (c: Link)
    requires WellHashed(MARKING) && Opens(MARKING, a) && Follows(MARKING, a, b)
    requires Admitted(a.request, Fit) && Admitted(b.request, Refit)
    ensures Follows(MARKING, b, c) && Accepts(MARKING, 1, c, Refit)
    ensures c.request == Again(a.request, b.fitted.scorer, "again") && c.digest == Address('3')
    ensures Mark(c.fitted.model) == '6' && Mark(c.fitted.priorPack) == '9'
  {
    hide FitOf, Verdict, Admitted, ScorerValid, Lineages, Sum, InOrder;
    NotBlank("again");
    LineageMayReturn(MARKING, a, b, "again");
    c :| && Chain(MARKING, [a, b, c]) && c.request == Again(a.request, b.fitted.scorer, "again")
         && c.digest == Digest(MARKING, RequestValue(c.request)) && Admitted(c.request, Refit);
    ChainStep(MARKING, [a, b, c]);
    VerdictMeansAdmitted(c.request, Refit);
    StepFacts(MARKING, a, b);
    ValidScorerIsPositive(MARKING, b.fitted.scorer);
    AddressesDiffer('3', '1');
    AddressesDiffer('3', '2');
    MarkedStorable(c.request, c.digest, Some(b.fitted.scorer), Some(b.request), c.fitted);
  }

  ghost predicate AllMarked(payloads: seq<Payload>) {
    forall i, j :: 0 <= i < j < |payloads| ==> Mark(payloads[i]) != Mark(payloads[j])
  }

  lemma MarksTellApart(payloads: seq<Payload>, hashed: set<Payload>)
    requires AllMarked(payloads) && forall p :: p in hashed ==> p in payloads
    ensures CollisionFree(MARKING, hashed)
  {
    forall p, q | p in hashed && q in hashed && MARKING.hex(p) == MARKING.hex(q) ensures p == q {
      assert MARKING.hex(p)[0] == Mark(p) && MARKING.hex(q)[0] == Mark(q);
    }
  }

  lemma NineMarks(a: Link, b: Link, c: Link)
    requires a.request.operationId == "fit" && b.request.operationId == "refit" && c.request.operationId == "again"
    requires Mark(a.fitted.model) == '4' && Mark(b.fitted.model) == '5' && Mark(c.fitted.model) == '6'
    requires Mark(a.fitted.priorPack) == '7' && Mark(b.fitted.priorPack) == '8' && Mark(c.fitted.priorPack) == '9'
    ensures CollisionFree(MARKING, PayloadsOf(a) + PayloadsOf(b) + PayloadsOf(c))
  {
    var x, y, z := RequestValue(a.request), RequestValue(b.request), RequestValue(c.request);
    assert Mark(x) == '1' && Mark(y) == '2' && Mark(z) == '3';
    hide Mark;
    var all := [x, y, z, a.fitted.model, b.fitted.model, c.fitted.model, a.fitted.priorPack, b.fitted.priorPack, c.fitted.priorPack];
    MarksTellApart(all, PayloadsOf(a) + PayloadsOf(b) + PayloadsOf(c));
  }

  /** Three accepted jobs, all succeeded, with no digest shared by two payloads: the lineages "x" and "y"
      of the first are evidence of the third again, and count twice in its posterior. */
  lemma ConcreteLineageCountedTwice()
    ensures WellHashed(MARKING)
    ensures exists a: Link, b: Link, c: Link ::
              var s := Run(MARKING, Empty(1), ThreeJobs(a.request, b.request, c.request));
              && SucceededWith(s, 0, a) && SucceededWith(s, 1, b) && SucceededWith(s, 2, c) && CollisionFree(MARKING, s.hashed)
              && a.request.evidence == PAIR && b.request.evidence == OTHERS && c.request.evidence == PAIR
              && Posterior(c).alpha == 7.0
  {
    hide FitOf, Verdict, Admitted, ScorerValid, Lineages, Chosen, Sum, Run, Mark, Opens, Follows, Accepts, SucceededWith, CollisionFree, ThreeJobs, PayloadsOf;
    PairFacts();
    var a := OpeningLink();
    var b := RefitLink(a);
    var c := ReturnLink(a, b);
    ThreeJobsCountTwice(MARKING, 1, a, b, c);
    NineMarks(a, b, c);
  }
}
