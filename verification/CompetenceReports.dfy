// What a fit says, told on the request's own fields: how every item counts, what the scorer and
// its payloads hold, and what each refusal of the fitter means.

module CompetenceReports {
  import opened Common
  import opened Ordering
  import opened CompetenceContract
  import opened CompetenceFit
  import opened CompetenceChains

  // ----- How evidence counts -----

  ghost function Survivors(s: seq<Evidence>): nat {
    |set i | 0 <= i < |s| && s[i].role == Training && s[i].survived|
  }

  ghost function Failures(s: seq<Evidence>): nat {
    |set i | 0 <= i < |s| && s[i].role == Training && !s[i].survived|
  }

  /** The weighted outcomes of the held-out items, and the weighted complements. */
  ghost function HeldOutcomes(s: seq<Evidence>): real {
    if s == [] then 0.0
    else
      var e := s[|s| - 1];
      HeldOutcomes(s[..|s| - 1])
      + if e.role == HeldOut && e.selection.Some? then e.selection.value.outcome * e.selection.value.weight else 0.0
  }

  ghost function HeldComplements(s: seq<Evidence>): real {
    if s == [] then 0.0
    else
      var e := s[|s| - 1];
      HeldComplements(s[..|s| - 1])
      + if e.role == HeldOut && e.selection.Some? then (1.0 - e.selection.value.outcome) * e.selection.value.weight else 0.0
  }

  lemma CountsGrow(s: seq<Evidence>, e: Evidence)
    ensures Survivors(s + [e]) == Survivors(s) + if e.role == Training && e.survived then 1 else 0
    ensures Failures(s + [e]) == Failures(s) + if e.role == Training && !e.survived then 1 else 0
  {
    SurvivorsGrow(s, e);
    FailuresGrow(s, e);
  }

  lemma SurvivorsGrow(s: seq<Evidence>, e: Evidence)
    ensures Survivors(s + [e]) == Survivors(s) + if e.role == Training && e.survived then 1 else 0
  {
    var t, a := s + [e], set i | 0 <= i < |s| && s[i].role == Training && s[i].survived;
    var b := set i | 0 <= i < |t| && t[i].role == Training && t[i].survived;
    if e.role == Training && e.survived {
      assert b == a + {|s|};
    } else {
      assert b == a;
    }
  }

  lemma FailuresGrow(s: seq<Evidence>, e: Evidence)
    ensures Failures(s + [e]) == Failures(s) + if e.role == Training && !e.survived then 1 else 0
  {
    var t, a := s + [e], set i | 0 <= i < |s| && s[i].role == Training && !s[i].survived;
    var b := set i | 0 <= i < |t| && t[i].role == Training && !t[i].survived;
    if e.role == Training && !e.survived {
      assert b == a + {|s|};
    } else {
      assert b == a;
    }
  }

  /** All evidence: a survivor counts one for alpha, a failure one for beta. */
  lemma {:induction false} LearnedCounts(start: Beta, s: seq<Evidence>)
    ensures Learned(start, s) == Beta(start.alpha + Survivors(s) as real + HeldOutcomes(s),
                                      start.beta + Failures(s) as real + HeldComplements(s))
  {
    if s != [] {
      var init, e := s[..|s| - 1], s[|s| - 1];
      LearnedCounts(start, init);
      hide Survivors, Failures;
      assert s == init + [e];
      CountsGrow(init, e);
    }
  }

  /** The training evidence alone. */
  lemma {:induction false} ChosenCounting(s: seq<Evidence>)
    ensures Survivors(Chosen(s, Training)) == Survivors(s) && Failures(Chosen(s, Training)) == Failures(s)
    ensures HeldOutcomes(Chosen(s, Training)) == 0.0 && HeldComplements(Chosen(s, Training)) == 0.0
  {
    hide Survivors, Failures;
    if s != [] {
      var init, e := s[..|s| - 1], s[|s| - 1];
      ChosenCounting(init);
      assert s == init + [e];
      CountsGrow(init, e);
      if e.role == Training {
        CountsGrow(Chosen(init, Training), e);
        assert Chosen(s, Training)[..|Chosen(s, Training)| - 1] == Chosen(init, Training);
      } else {
        assert Chosen(s, Training) == Chosen(init, Training);
      }
    }
  }

  lemma TrainedCounts(start: Beta, s: seq<Evidence>)
    ensures Learned(start, InOrder(s, Training)) == Beta(start.alpha + Survivors(s) as real, start.beta + Failures(s) as real)
  {
    LearnedIgnoresOrder(start, InOrder(s, Training), Chosen(s, Training));
    LearnedCounts(start, Chosen(s, Training));
    ChosenCounting(s);
  }

  /** The belief a fit starts from. */
  ghost function StartOf(q: Request, scorer: Option<Scorer>): Beta
    requires q.kind == Refit ==> scorer.Some?
  {
    if q.kind == Refit then scorer.value.posterior else Beta(1.0, 1.0)
  }

  /** In every fit the prior adds the survivors to alpha and the failures to beta, and the posterior
      the weighted outcomes and their complements to those. */
  lemma FitCounts(h: Hashing, q: Request, digest: string, scorer: Option<Scorer>, earlier: Option<Request>)
    requires PriorScorer(h, scorer) && FitOf(h, q, digest, scorer, earlier).Ok?
    ensures q.kind == Refit ==> scorer.Some?
    ensures var s, start := FitOf(h, q, digest, scorer, earlier).value.scorer, StartOf(q, scorer);
            && s.prior == Beta(start.alpha + Survivors(q.evidence) as real, start.beta + Failures(q.evidence) as real)
            && s.posterior == Beta(s.prior.alpha + HeldOutcomes(q.evidence), s.prior.beta + HeldComplements(q.evidence))
  {
    hide FitOf, Learned, InOrder, Survivors, Failures, HeldOutcomes, HeldComplements, ScorerValid, Lineages;
    FittedFacts(h, q, digest, scorer, earlier);
    var start := StartingPrior(q, scorer, earlier).value;
    TrainedCounts(start, q.evidence);
    LearnedCounts(start, q.evidence);
  }

  /** Along every chain alpha is one plus the survivors and the weighted outcomes consumed, beta one
      plus the failures and the complements. */
  lemma ChainCounts(h: Hashing, links: seq<Link>)
    requires Chain(h, links)
    ensures Posterior(Last(links)) == Beta(1.0 + Survivors(Pool(links)) as real + HeldOutcomes(Pool(links)),
                                           1.0 + Failures(Pool(links)) as real + HeldComplements(Pool(links)))
  {
    hide Chain, Learned, InOrder, Survivors, Failures, HeldOutcomes, HeldComplements, ScorerValid;
    ChainAddsUp(h, links);
    LearnedCounts(UNIFORM, Pool(links));
  }

  // ----- What a scorer holds -----

  /** A sorted list of exactly the lineages of one role. */
  ghost predicate ListsLineages(list: seq<string>, s: seq<Evidence>, role: Role) {
    && SortedBy(Leq, list)
    && forall x :: x in list <==> exists i :: 0 <= i < |s| && s[i].role == role && s[i].lineage == x
  }

  lemma {:induction false} ChosenAre(s: seq<Evidence>, role: Role)
    ensures forall i :: 0 <= i < |s| && s[i].role == role ==> s[i] in Chosen(s, role)
  {
    forall i | 0 <= i < |s| && s[i].role == role ensures s[i] in Chosen(s, role) {
      ChosenHas(s, i);
    }
  }

  lemma InOrderHas(s: seq<Evidence>, role: Role)
    ensures forall i :: 0 <= i < |s| && s[i].role == role ==> s[i] in InOrder(s, role)
  {
    hide Chosen, InOrder;
    ChosenAre(s, role);
    forall i | 0 <= i < |s| && s[i].role == role ensures s[i] in InOrder(s, role) {
      assert s[i] in multiset(Chosen(s, role));
      assert s[i] in multiset(InOrder(s, role));
    }
  }

  lemma SortedKeeps(list: seq<string>)
    ensures SortedBy(Leq, SortStrings(list)) && forall x :: x in SortStrings(list) <==> x in list
  {
    var r := SortStrings(list);
    assert forall x :: x in r <==> x in multiset(r);
    assert forall x :: x in list <==> x in multiset(list);
  }

  lemma LineageIn(s: seq<Evidence>, role: Role, x: string)
    ensures x in LineageIds(InOrder(s, role)) <==> exists i :: 0 <= i < |s| && s[i].role == role && s[i].lineage == x
  {
    InOrderHas(s, role);
    var t := InOrder(s, role);
    hide InOrder;
    var list := LineageIds(t);
    if x in list {
      var k :| 0 <= k < |list| && list[k] == x;
      var i :| 0 <= i < |s| && s[i] == t[k];
    }
    if i :| 0 <= i < |s| && s[i].role == role && s[i].lineage == x {
      var k :| 0 <= k < |t| && t[k] == s[i];
      assert list[k] == x;
    }
  }

  lemma LineagesListed(s: seq<Evidence>, role: Role)
    ensures ListsLineages(LineageIds(InOrder(s, role)), s, role)
    ensures ListsLineages(SortStrings(LineageIds(InOrder(s, role))), s, role)
  {
    var t := InOrder(s, role);
    var list := LineageIds(t);
    assert SortedBy(Leq, list) by {
      assert forall j, k :: 0 <= j < k < |t| ==> LineageLeq(t[j], t[k]);
    }
    hide InOrder, LineageIds, SortStrings, SortedBy;
    SortedKeeps(list);
    forall x ensures x in list <==> exists i :: 0 <= i < |s| && s[i].role == role && s[i].lineage == x { LineageIn(s, role, x); }
  }

  /** The scorer repeats the request's terms, its names are prefixes of the two digests, and both
      payloads and the receipt hold the request's identities, lists and beliefs. */
  lemma FitContents(h: Hashing, q: Request, digest: string, scorer: Option<Scorer>, earlier: Option<Request>)
    requires PriorScorer(h, scorer) && FitOf(h, q, digest, scorer, earlier).Ok?
    ensures Holds(h, q, digest, FitOf(h, q, digest, scorer, earlier).value)
  {
    StartIsPositive(h, q, scorer, earlier);
    var start := StartingPrior(q, scorer, earlier).value;
    hide StartingPrior, Learned;
    LearnedStaysPositive(start, q.evidence);
    var prior, posterior := Learned(start, InOrder(q.evidence, Training)), Learned(start, q.evidence);
    assert FitOf(h, q, digest, scorer, earlier).value.scorer == ScorerOf(h, q, digest, prior, posterior);
    ScorerHolds(h, q, digest, prior, posterior);
  }

  lemma ScorerHolds(h: Hashing, q: Request, digest: string, prior: Beta, posterior: Beta)
    requires WellHashed(h) && Positive(posterior)
    ensures Holds(h, q, digest, Fitted(ScorerOf(h, q, digest, prior, posterior), ModelOf(h, q, digest, prior, posterior),
                                       PriorPackOf(q, digest, prior)))
  {
    LineagesListed(q.evidence, Training);
    LineagesListed(q.evidence, HeldOut);
    DecisionsListed(q.evidence);
    SelectionsListed(q.evidence);
    hide InOrder, LineageIds, SortStrings, DecisionList, Observations, ListsLineages, ListsDecisions, ListsSelections;
  }

  ghost predicate ListsDecisions(list: seq<string>, s: seq<Evidence>) {
    SortedBy(Leq, list) && forall x :: x in list <==> exists i :: 0 <= i < |s| && DecidedBy(s[i], x)
  }

  ghost predicate ListsSelections(list: seq<Selection>, s: seq<Evidence>) {
    forall x :: x in list <==> exists i :: 0 <= i < |s| && s[i].role == HeldOut && s[i].selection == Some(x)
  }

  lemma {:induction false} SelectionsIn(t: seq<Evidence>)
    requires forall k :: 0 <= k < |t| ==> t[k].role == HeldOut
    ensures forall x :: x in Observations(t) <==> exists k :: 0 <= k < |t| && t[k].selection == Some(x)
    ensures forall x :: x in DecisionList(t) <==> exists k :: 0 <= k < |t| && DecidedBy(t[k], x)
  {
    if t != [] {
      SelectionsIn(t[..|t| - 1]);
    }
  }

  lemma HeldOutIn(s: seq<Evidence>, x: Evidence)
    ensures x in InOrder(s, HeldOut) <==> x in s && x.role == HeldOut
  {
    InOrderHas(s, HeldOut);
    hide InOrder;
    var t := InOrder(s, HeldOut);
    if x in t {
      var k :| 0 <= k < |t| && t[k] == x;
      assert t[k].role == HeldOut && t[k] in s;
    }
  }

  lemma DecisionsListed(s: seq<Evidence>)
    ensures ListsDecisions(SortStrings(DecisionList(InOrder(s, HeldOut))), s)
  {
    var t := InOrder(s, HeldOut);
    SelectionsIn(t);
    hide InOrder, DecisionList, Observations, SortStrings, SortedBy;
    SortedKeeps(DecisionList(t));
    forall x ensures x in t <==> x in s && x.role == HeldOut { HeldOutIn(s, x); }
    forall x ensures x in DecisionList(t) <==> exists i :: 0 <= i < |s| && DecidedBy(s[i], x) {
      if k :| 0 <= k < |t| && DecidedBy(t[k], x) { assert t[k] in t; }
      if i :| 0 <= i < |s| && DecidedBy(s[i], x) { assert s[i] in t; }
    }
  }

  lemma SelectionsListed(s: seq<Evidence>)
    ensures ListsSelections(Observations(InOrder(s, HeldOut)), s)
  {
    var t := InOrder(s, HeldOut);
    SelectionsIn(t);
    hide InOrder, DecisionList, Observations, DecidedBy;
    forall x ensures x in t <==> x in s && x.role == HeldOut { HeldOutIn(s, x); }
    forall x ensures x in Observations(t) <==> exists i :: 0 <= i < |s| && s[i].role == HeldOut && s[i].selection == Some(x) {
      if k :| 0 <= k < |t| && t[k].selection == Some(x) { assert t[k] in t; }
      if i :| 0 <= i < |s| && s[i].role == HeldOut && s[i].selection == Some(x) { assert s[i] in t; }
    }
  }

  ghost predicate Prefix(s: string, head: string, of: string, n: nat) {
    s == head + if |of| <= n then of else of[..n]
  }

  ghost predicate Holds(h: Hashing, q: Request, digest: string, f: Fitted) {
    var s, m, p := f.scorer, f.model, f.priorPack;
    && s.floor == q.floor && s.oracle == q.oracle && s.evidenceClass == q.oracle && s.substitution == q.substitution && s.live == q.live
    && Prefix(s.scorerId, "capability-competence:", h.hex(ScopeValue(q.scope)), 32)
    && Prefix(s.version, "beta-bernoulli-ipw-v1:", if "sha256:" <= digest then digest[7..] else digest, 24)
    && p.PriorValue? && p.requestDigest == digest && p.scope == q.scope && p.trainingDigest == q.trainingDigest
    && p.prior == s.prior && p.previous == q.previous && ListsLineages(p.trainingLineages, q.evidence, Training)
    && m.ModelValue? && m.requestDigest == digest && m.scope == q.scope && m.scorerId == s.scorerId && m.version == s.version
    && m.trainingDigest == q.trainingDigest && m.evaluationDigest == q.evaluationDigest && m.previous == q.previous
    && m.priorPackId == "sha256:" + h.hex(p) && m.prior == s.prior && m.posterior == s.posterior
    && m.lineages == s.lineages && m.decisionRefs == s.decisionRefs
    && ListsLineages(s.lineages, q.evidence, HeldOut) && ListsDecisions(s.decisionRefs, q.evidence)
    && s.priorPackId == "sha256:" + h.hex(p) && s.priorPack.payloadDigest == "sha256:" + h.hex(p)
    && s.model.payloadDigest == "sha256:" + h.hex(m)
    && s.receipt.kind == "capability_competence" && s.receipt.prior == s.prior && s.receipt.posterior == s.posterior
    && ListsSelections(s.receipt.observations, q.evidence)
    && s.receipt.metadata == Metadata(q.scope, q.evaluationDigest, s.version, "sha256:" + h.hex(m), "sha256:" + h.hex(p), s.lineages, s.decisionRefs)
  }

  // ----- What the fitter demands and refuses -----

  /** A refit names its predecessor exactly, stays in its scope, and shares no lineage with it. */
  ghost predicate Succeeds(q: Request, scorer: Option<Scorer>, earlier: Option<Request>) {
    && scorer.Some? && earlier.Some? && q.previous.Some?
    && q.previous.value.scorerId == scorer.value.scorerId && q.previous.value.version == scorer.value.version
    && q.previous.value.modelId == scorer.value.model.id && q.previous.value.priorPackId == scorer.value.priorPackId
    && earlier.value.scope == q.scope
    && forall i, j :: 0 <= i < |earlier.value.evidence| && 0 <= j < |q.evidence| ==>
         earlier.value.evidence[i].lineage != q.evidence[j].lineage
  }

  lemma OverlapMeans(a: seq<Evidence>, b: seq<Evidence>)
    ensures Lineages(a) * Lineages(b) == {} <==>
            forall i, j :: 0 <= i < |a| && 0 <= j < |b| ==> a[i].lineage != b[j].lineage
  {
    hide Lineages, Decisions, Sources, Roles;
    forall x ensures x in Lineages(a) <==> exists i :: 0 <= i < |a| && a[i].lineage == x { CollectedMean(a, x, Training); }
    forall x ensures x in Lineages(b) <==> exists i :: 0 <= i < |b| && b[i].lineage == x { CollectedMean(b, x, Training); }
    if Lineages(a) * Lineages(b) != {} {
      var x :| x in Lineages(a) * Lineages(b);
      assert x in Lineages(a) && x in Lineages(b);
    }
    forall i, j | 0 <= i < |a| && 0 <= j < |b| && a[i].lineage == b[j].lineage ensures Lineages(a) * Lineages(b) != {} {
      assert a[i].lineage in Lineages(a) * Lineages(b);
    }
  }

  ghost predicate OutOfRange(s: Selection) {
    || s.behavior <= 0.0 || s.behavior > 1.0 || s.target < 0.0 || s.target > 1.0 || s.weight < 0.0
    || s.outcome < 0.0 || s.outcome > 1.0 || s.weighted < 0.0 || s.weighted > s.weight
  }

  /** What each error of the fitter reports. */
  ghost predicate Explains(q: Request, scorer: Option<Scorer>, earlier: Option<Request>, e: FitError) {
    match e
    case NoSelection => exists i :: 0 <= i < |q.evidence| && q.evidence[i].role == HeldOut && q.evidence[i].selection.None?
    case BadSelection =>
      exists i :: 0 <= i < |q.evidence| && q.evidence[i].role == HeldOut && q.evidence[i].selection.Some?
                  && OutOfRange(q.evidence[i].selection.value)
    case PreviousNotFound => q.kind == Refit && (scorer.None? || earlier.None?)
    case PreviousMismatch =>
      q.kind == Refit && scorer.Some? &&
      (q.previous.None? || q.previous.value.scorerId != scorer.value.scorerId || q.previous.value.version != scorer.value.version
       || q.previous.value.modelId != scorer.value.model.id || q.previous.value.priorPackId != scorer.value.priorPackId)
    case ScopeMismatch => q.kind == Refit && earlier.Some? && earlier.value.scope != q.scope
    case LineageOverlap =>
      q.kind == Refit && earlier.Some? &&
      exists i, j :: 0 <= i < |earlier.value.evidence| && 0 <= j < |q.evidence|
                     && earlier.value.evidence[i].lineage == q.evidence[j].lineage
    case ContractViolated => Admitted(q, q.kind) ==> |q.decisionRefs| != HeldOutCount(q.evidence)
  }

  ghost function HeldOutCount(s: seq<Evidence>): nat {
    |set i | 0 <= i < |s| && s[i].role == HeldOut|
  }

  lemma HeldOutCountGrows(s: seq<Evidence>, e: Evidence)
    ensures HeldOutCount(s + [e]) == HeldOutCount(s) + if e.role == HeldOut then 1 else 0
  {
    var t, before := s + [e], set i | 0 <= i < |s| && s[i].role == HeldOut;
    assert (set i | 0 <= i < |t| && t[i].role == HeldOut) == before + if e.role == HeldOut then {|s|} else {};
  }

  lemma {:induction false} ChosenCount(s: seq<Evidence>)
    ensures |Chosen(s, HeldOut)| == HeldOutCount(s)
  {
    if s != [] {
      hide HeldOutCount;
      var init, e := s[..|s| - 1], s[|s| - 1];
      assert s == init + [e];
      ChosenCount(init);
      HeldOutCountGrows(init, e);
    }
  }

  lemma {:induction false} LearningExplains(q: Request, s: seq<Evidence>)
    requires LearningFault(s).Some? && forall i :: 0 <= i < |s| ==> s[i] in q.evidence
    ensures LearningFault(s).value in {NoSelection, BadSelection} && Explains(q, None, None, LearningFault(s).value)
  {
    var n := |s| - 1;
    if LearningFault(s[..n]).Some? {
      LearningExplains(q, s[..n]);
    } else {
      var i :| 0 <= i < |q.evidence| && q.evidence[i] == s[n];
    }
  }

  /** The fitter succeeds only on what a refit must be, and otherwise reports something true. */
  lemma FitterExplains(h: Hashing, q: Request, digest: string, scorer: Option<Scorer>, earlier: Option<Request>)
    requires PriorScorer(h, scorer)
    ensures var r := FitOf(h, q, digest, scorer, earlier);
            && (r.Ok? && q.kind == Refit ==> Succeeds(q, scorer, earlier))
            && (r.Err? ==> Explains(q, scorer, earlier, r.error))
  {
    hide Concluded, Lineages, StartingPrior, Succeeds, Explains;
    if LearningFault(q.evidence).Some? {
      LearningExplains(q, q.evidence);
      ExplainedAnyway(q, scorer, earlier, LearningFault(q.evidence).value);
    } else {
      StartExplains(q, scorer, earlier);
      if StartingPrior(q, scorer, earlier).Ok? {
        StartIsPositive(h, q, scorer, earlier);
        ConcludedExplains(h, q, digest, StartingPrior(q, scorer, earlier).value, scorer, earlier);
      }
    }
  }

  lemma ExplainedAnyway(q: Request, scorer: Option<Scorer>, earlier: Option<Request>, e: FitError)
    requires e in {NoSelection, BadSelection} && Explains(q, None, None, e)
    ensures Explains(q, scorer, earlier, e)
  {
  }

  lemma StartExplains(q: Request, scorer: Option<Scorer>, earlier: Option<Request>)
    ensures var r := StartingPrior(q, scorer, earlier);
            && (r.Ok? && q.kind == Refit ==> Succeeds(q, scorer, earlier))
            && (r.Err? ==> Explains(q, scorer, earlier, r.error))
  {
    hide Lineages;
    if earlier.Some? {
      OverlapMeans(earlier.value.evidence, q.evidence);
    }
  }

  lemma ConcludedExplains(h: Hashing, q: Request, digest: string, start: Beta, scorer: Option<Scorer>, earlier: Option<Request>)
    requires WellHashed(h) && Positive(start) && forall i :: 0 <= i < |q.evidence| ==> Learnable(q.evidence[i])
    ensures Concluded(h, q, digest, start).Err? ==>
              Concluded(h, q, digest, start).error == ContractViolated && Explains(q, scorer, earlier, ContractViolated)
  {
    ErrorIsContract(h, q, digest, start);
    ChosenCount(q.evidence);
    SameLength(InOrder(q.evidence, HeldOut), Chosen(q.evidence, HeldOut));
    hide Concluded, Admitted, InOrder, Chosen, HeldOutCount, Learnable, Explains;
    if Admitted(q, q.kind) {
      ConcludedIff(h, q, q.kind, digest, start);
    }
    if Concluded(h, q, digest, start).Err? {
      MiscountExplains(q, scorer, earlier);
    }
  }

  lemma MiscountExplains(q: Request, scorer: Option<Scorer>, earlier: Option<Request>)
    requires Admitted(q, q.kind) ==> |q.decisionRefs| != HeldOutCount(q.evidence)
    ensures Explains(q, scorer, earlier, ContractViolated)
  {
    hide Admitted;
  }

  lemma ErrorIsContract(h: Hashing, q: Request, digest: string, start: Beta)
    requires WellHashed(h) && Positive(start) && forall i :: 0 <= i < |q.evidence| ==> Learnable(q.evidence[i])
    ensures Concluded(h, q, digest, start).Err? ==> Concluded(h, q, digest, start).error == ContractViolated
  {
    hide ScorerOf, ScorerValid, ModelOf, PriorPackOf, Learned, InOrder, Learnable;
    LearnedStaysPositive(start, q.evidence);
  }
}
