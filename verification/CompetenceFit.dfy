// The Beta-Bernoulli fitter: evidence folded into a prior and a posterior, the scorer built
// from them, and what a chain of refits adds up to.

module CompetenceFit {
  import opened Common
  import opened Ordering
  import opened CompetenceContract

  datatype FitError =
    | NoSelection | BadSelection | PreviousNotFound | PreviousMismatch | ScopeMismatch | LineageOverlap | ContractViolated

  datatype Fitted = Fitted(scorer: Scorer, model: Payload, priorPack: Payload)

  const FITTER := "beta-bernoulli-ipw-v1"
  const SCORER_MEDIA := "application/" + "vnd.theorem.competence-scorer+json"
  const PRIOR_MEDIA := "application/" + "vnd.theorem.prior-pack+json"

  // ----- Sums over evidence -----

  function Sum(f: Evidence -> real, s: seq<Evidence>): real {
    if s == [] then 0.0 else Sum(f, s[..|s| - 1]) + f(s[|s| - 1])
  }

  /** What one item adds to alpha and to beta. */
  function Credit(e: Evidence): real {
    if e.role == Training then (if e.survived then 1.0 else 0.0)
    else if e.selection.None? then 0.0
    else e.selection.value.outcome * e.selection.value.weight
  }

  function Debit(e: Evidence): real {
    if e.role == Training then (if e.survived then 0.0 else 1.0)
    else if e.selection.None? then 0.0
    else (1.0 - e.selection.value.outcome) * e.selection.value.weight
  }

  function Reported(e: Evidence): real {
    if e.role == Training || e.selection.None? then 0.0 else e.selection.value.weighted
  }

  function Slack(e: Evidence): real {
    if e.role == Training || e.selection.None? then 0.0 else TOLERANCE * Max(1.0, e.selection.value.weight)
  }

  lemma {:induction false} SumSplits(f: Evidence -> real, s: seq<Evidence>, t: seq<Evidence>)
    ensures Sum(f, s + t) == Sum(f, s) + Sum(f, t)
  {
    if t == [] {
      assert s + t == s;
    } else {
      assert (s + t)[..|s + t| - 1] == s + t[..|t| - 1];
      SumSplits(f, s, t[..|t| - 1]);
    }
  }

  lemma SumOne(f: Evidence -> real, e: Evidence)
    ensures Sum(f, [e]) == f(e)
  {
    assert Sum(f, [e][..0]) == 0.0;
  }

  function DroppingAt(s: seq<Evidence>, k: nat): seq<Evidence>
    requires k < |s|
  {
    s[..k] + s[k + 1..]
  }

  lemma SumDropping(f: Evidence -> real, s: seq<Evidence>, k: nat)
    requires k < |s|
    ensures Sum(f, s) == Sum(f, DroppingAt(s, k)) + f(s[k])
  {
    hide Sum;
    assert s == s[..k] + [s[k]] + s[k + 1..];
    SumSplits(f, s[..k] + [s[k]], s[k + 1..]);
    SumSplits(f, s[..k], [s[k]]);
    SumSplits(f, s[..k], s[k + 1..]);
    SumOne(f, s[k]);
  }

  lemma CountDropping(s: seq<Evidence>, k: nat)
    requires k < |s|
    ensures multiset(DroppingAt(s, k)) == multiset(s) - multiset{s[k]}
  {
    assert s == s[..k] + ([s[k]] + s[k + 1..]);
    assert multiset(s) == multiset(s[..k]) + multiset([s[k]] + s[k + 1..]);
  }

  lemma {:induction false} SumIgnoresOrder(f: Evidence -> real, s: seq<Evidence>, t: seq<Evidence>)
    requires multiset(s) == multiset(t)
    ensures Sum(f, s) == Sum(f, t)
    decreases |s|
  {
    hide Sum, DroppingAt;
    if s == [] {
      assert |multiset(t)| == 0;
      assert t == [];
    } else {
      var n := |s| - 1;
      assert s[n] in multiset(t);
      var k :| 0 <= k < |t| && t[k] == s[n];
      CountDropping(s, n);
      CountDropping(t, k);
      assert |multiset(DroppingAt(s, n))| == |s| - 1;
      SumIgnoresOrder(f, DroppingAt(s, n), DroppingAt(t, k));
      SumDropping(f, s, n);
      SumDropping(f, t, k);
    }
  }

  lemma {:induction false} SumNonNegative(f: Evidence -> real, s: seq<Evidence>)
    requires forall i :: 0 <= i < |s| ==> f(s[i]) >= 0.0
    ensures Sum(f, s) >= 0.0
  {
    if s != [] {
      SumNonNegative(f, s[..|s| - 1]);
    }
  }

  // ----- Choosing and ordering evidence -----

  function Chosen(s: seq<Evidence>, role: Role): (r: seq<Evidence>)
    ensures forall i :: 0 <= i < |r| ==> r[i].role == role && r[i] in s
  {
    if s == [] then []
    else Chosen(s[..|s| - 1], role) + if s[|s| - 1].role == role then [s[|s| - 1]] else []
  }

  predicate LineageLeq(a: Evidence, b: Evidence) {
    Leq(a.lineage, b.lineage)
  }

  lemma LineageLeqIsTotal()
    ensures TotalPreorder(LineageLeq)
  {
    LeqIsTotal();
    forall a: Evidence, b: Evidence, c: Evidence | Linked(LineageLeq, a, b, c) ensures LineageLeq(a, c) {
      assert Linked(Leq, a.lineage, b.lineage, c.lineage);
    }
  }

  function InOrder(s: seq<Evidence>, role: Role): (r: seq<Evidence>)
    ensures multiset(r) == multiset(Chosen(s, role)) && SortedBy(LineageLeq, r)
    ensures forall i :: 0 <= i < |r| ==> r[i].role == role && r[i] in s
  {
    LineageLeqIsTotal();
    var r := SortBy(LineageLeq, Chosen(s, role));
    assert forall i :: 0 <= i < |r| ==> r[i] in multiset(r);
    r
  }

  /** Training and held-out evidence together are all of it. */
  lemma {:induction false} RolesSplitSum(f: Evidence -> real, s: seq<Evidence>)
    ensures Sum(f, s) == Sum(f, InOrder(s, Training)) + Sum(f, InOrder(s, HeldOut))
  {
    SumIgnoresOrder(f, InOrder(s, Training), Chosen(s, Training));
    SumIgnoresOrder(f, InOrder(s, HeldOut), Chosen(s, HeldOut));
    ChosenSplitsSum(f, s);
  }

  lemma {:induction false} ChosenSplitsSum(f: Evidence -> real, s: seq<Evidence>)
    ensures Sum(f, s) == Sum(f, Chosen(s, Training)) + Sum(f, Chosen(s, HeldOut))
  {
    if s != [] {
      var e := s[|s| - 1];
      ChosenSplitsSum(f, s[..|s| - 1]);
      SumSplits(f, Chosen(s[..|s| - 1], e.role), [e]);
      SumOne(f, e);
      var other := if e.role == Training then HeldOut else Training;
      assert Chosen(s, other) == Chosen(s[..|s| - 1], other);
    }
  }

  // ----- The fit as a function of its inputs -----

  function LineageIds(s: seq<Evidence>): (r: seq<string>)
    ensures |r| == |s| && forall i :: 0 <= i < |s| ==> r[i] == s[i].lineage
  {
    seq(|s|, i requires 0 <= i < |s| => s[i].lineage)
  }

  function DecisionList(s: seq<Evidence>): (r: seq<string>) {
    if s == [] then []
    else DecisionList(s[..|s| - 1]) + match s[|s| - 1].selection case Some(x) => [x.decisionRef] case None => []
  }

  function Observations(s: seq<Evidence>): (r: seq<Selection>) {
    if s == [] then []
    else Observations(s[..|s| - 1]) + match s[|s| - 1].selection case Some(x) => [x] case None => []
  }

  function SortStrings(s: seq<string>): (r: seq<string>)
    ensures SortedBy(Leq, r) && multiset(r) == multiset(s)
  {
    LeqIsTotal();
    SortBy(Leq, s)
  }

  predicate Learnable(e: Evidence) {
    e.role == HeldOut ==> e.selection.Some? && SelectionInRange(e.selection.value)
  }

  function LearningFault(s: seq<Evidence>): (r: Option<FitError>)
    ensures r.None? <==> forall i :: 0 <= i < |s| ==> Learnable(s[i])
  {
    if s == [] then None
    else
      var before := LearningFault(s[..|s| - 1]);
      var e := s[|s| - 1];
      if before.Some? then before
      else if e.role == Training then None
      else if e.selection.None? then Some(NoSelection)
      else if !SelectionInRange(e.selection.value) then Some(BadSelection)
      else None
  }

  predicate Names(p: PreviousScorer, s: Scorer) {
    p.scorerId == s.scorerId && p.version == s.version && p.modelId == s.model.id && p.priorPackId == s.priorPackId
  }

  function StartingPrior(q: Request, scorer: Option<Scorer>, earlier: Option<Request>): Result<Beta, FitError> {
    if q.kind == Fit then Ok(Beta(1.0, 1.0))
    else if scorer.None? || earlier.None? then Err(PreviousNotFound)
    else if q.previous.None? || !Names(q.previous.value, scorer.value) then Err(PreviousMismatch)
    else if earlier.value.scope != q.scope then Err(ScopeMismatch)
    else if Lineages(earlier.value.evidence) * Lineages(q.evidence) != {} then Err(LineageOverlap)
    else Ok(scorer.value.posterior)
  }

  /** The belief after evidence, wherever it is listed. */
  function Learned(start: Beta, s: seq<Evidence>): Beta {
    Beta(start.alpha + Sum(Credit, s), start.beta + Sum(Debit, s))
  }

  lemma LearnedStaysPositive(start: Beta, s: seq<Evidence>)
    requires Positive(start) && forall i :: 0 <= i < |s| ==> Learnable(s[i])
    ensures Positive(Learned(start, s))
  {
    forall i | 0 <= i < |s| ensures Credit(s[i]) >= 0.0 && Debit(s[i]) >= 0.0 {
      assert Learnable(s[i]);
    }
    SumNonNegative(Credit, s);
    SumNonNegative(Debit, s);
  }

  function ScorerId(h: Hashing, scope: Scope): string
    requires WellHashed(h)
  {
    assert IsHex64(h.hex(ScopeValue(scope)));
    "capability-competence:" + h.hex(ScopeValue(scope))[..32]
  }

  function Take(s: string, n: nat): string {
    if |s| <= n then s else s[..n]
  }

  function Version(digest: string): string {
    FITTER + ":" + Take(if "sha256:" <= digest then digest[7..] else digest, 24)
  }

  function PriorPackOf(q: Request, digest: string, prior: Beta): Payload {
    PriorValue(digest, q.scope, q.trainingDigest, prior, LineageIds(InOrder(q.evidence, Training)), q.previous)
  }

  function ModelOf(h: Hashing, q: Request, digest: string, prior: Beta, posterior: Beta): Payload
    requires WellHashed(h)
  {
    var heldOut := InOrder(q.evidence, HeldOut);
    ModelValue(ScorerId(h, q.scope), Version(digest), digest, q.scope, q.trainingDigest, q.evaluationDigest,
               Digest(h, PriorPackOf(q, digest, prior)), prior, posterior,
               SortStrings(LineageIds(heldOut)), SortStrings(DecisionList(heldOut)), q.previous)
  }

  function Describe(h: Hashing, p: Payload, kind: ArtifactKind, media: string): Artifact {
    Artifact(Digest(h, p), kind, Digest(h, p), media, h.size(p))
  }

  /** The scorer for a request whose prior and posterior are known. */
  function ScorerOf(h: Hashing, q: Request, digest: string, prior: Beta, posterior: Beta): Scorer
    requires WellHashed(h) && Positive(posterior)
  {
    var pack := PriorPackOf(q, digest, prior);
    var model := ModelOf(h, q, digest, prior, posterior);
    var receipt := ReceiptBody("capability_competence", model.scorerId, prior, Observations(InOrder(q.evidence, HeldOut)), posterior,
                               Metadata(q.scope, q.evaluationDigest, model.version, Digest(h, model), Digest(h, pack),
                                        model.lineages, model.decisionRefs));
    Scorer(model.scorerId, model.version, Describe(h, model, ScorerModel, SCORER_MEDIA),
           Digest(h, pack), Describe(h, pack, PriorPack, PRIOR_MEDIA), prior, posterior,
           receipt, h.hex(ReceiptValue(receipt)), q.floor, model.lineages, model.decisionRefs, q.oracle, q.oracle,
           q.substitution, q.live, posterior.alpha / (posterior.alpha + posterior.beta) >= q.floor)
  }

  lemma ReceiptObserves(h: Hashing, q: Request, digest: string, prior: Beta, posterior: Beta)
    requires WellHashed(h) && Positive(posterior)
    ensures ScorerOf(h, q, digest, prior, posterior).receipt.observations == Observations(InOrder(q.evidence, HeldOut))
  {
  }

  /** Learning from the training evidence and then from the held-out evidence is learning from all of it. */
  lemma LearnedInTurn(start: Beta, s: seq<Evidence>)
    ensures Learned(Learned(start, InOrder(s, Training)), InOrder(s, HeldOut)) == Learned(start, s)
  {
    RolesSplitSum(Credit, s);
    RolesSplitSum(Debit, s);
  }

  lemma StartIsPositive(h: Hashing, q: Request, scorer: Option<Scorer>, earlier: Option<Request>)
    requires PriorScorer(h, scorer)
    ensures StartingPrior(q, scorer, earlier).Ok? ==> Positive(StartingPrior(q, scorer, earlier).value)
  {
  }

  /** A scorer handed to the fitter holds a belief that has passed its own validator. */
  ghost predicate PriorScorer(h: Hashing, scorer: Option<Scorer>) {
    WellHashed(h) && (scorer.Some? ==> Positive(scorer.value.posterior))
  }

  /** The scorer and its payloads, once the starting belief is known. */
  function Concluded(h: Hashing, q: Request, digest: string, start: Beta): Result<Fitted, FitError>
    requires WellHashed(h) && Positive(start) && forall i :: 0 <= i < |q.evidence| ==> Learnable(q.evidence[i])
  {
    LearnedStaysPositive(start, q.evidence);
    var prior := Learned(start, InOrder(q.evidence, Training));
    var posterior := Learned(start, q.evidence);
    var result := ScorerOf(h, q, digest, prior, posterior);
    if ScorerValid(h, result) then Ok(Fitted(result, ModelOf(h, q, digest, prior, posterior), PriorPackOf(q, digest, prior)))
    else Err(ContractViolated)
  }

  lemma ValidScorerIsPositive(h: Hashing, s: Scorer)
    requires ScorerValid(h, s)
    ensures Positive(s.posterior)
  {
  }

  function FitOf(h: Hashing, q: Request, digest: string, scorer: Option<Scorer>, earlier: Option<Request>)
    : Result<Fitted, FitError>
    requires PriorScorer(h, scorer)
  {
    var fault := LearningFault(q.evidence);
    var start := StartingPrior(q, scorer, earlier);
    StartIsPositive(h, q, scorer, earlier);
    if fault.Some? then Err(fault.value)
    else if start.Err? then Err(start.error)
    else Concluded(h, q, digest, start.value)
  }

  // ----- The fit as the code runs it -----

  function Observe(b: Beta, outcome: real, weight: real): Beta {
    Beta(b.alpha + outcome * weight, b.beta + (1.0 - outcome) * weight)
  }

  method ValidateLearningEvidence(q: Request) returns (r: Option<FitError>)
    ensures r == LearningFault(q.evidence)
  {
    var i := 0;
    while i < |q.evidence|
      invariant 0 <= i <= |q.evidence| && LearningFault(q.evidence[..i]) == None
    {
      var e := q.evidence[i];
      assert q.evidence[..i + 1][..i] == q.evidence[..i];
      if e.role == HeldOut {
        if e.selection.None? {
          FaultStays(q.evidence, i + 1);
          return Some(NoSelection);
        }
        if !SelectionInRange(e.selection.value) {
          FaultStays(q.evidence, i + 1);
          return Some(BadSelection);
        }
      }
      i := i + 1;
    }
    assert q.evidence[..i] == q.evidence;
    return None;
  }

  lemma {:induction false} FaultStays(s: seq<Evidence>, n: nat)
    requires n <= |s| && LearningFault(s[..n]).Some?
    ensures LearningFault(s) == LearningFault(s[..n])
  {
    if n == |s| {
      assert s[..n] == s;
    } else {
      assert s[..|s| - 1][..n] == s[..n];
      FaultStays(s[..|s| - 1], n);
    }
  }

  method FitCompetence(h: Hashing, q: Request, digest: string, scorer: Option<Scorer>, earlier: Option<Request>)
    returns (r: Result<Fitted, FitError>)
    requires PriorScorer(h, scorer)
    ensures r == FitOf(h, q, digest, scorer, earlier)
  {
    hide InOrder, Learned, ScorerOf, ModelOf, PriorPackOf, ScorerValid, StartingPrior, Observations;
    var fault := ValidateLearningEvidence(q);
    if fault.Some? {
      return Err(fault.value);
    }
    var start := StartingPrior(q, scorer, earlier);
    if start.Err? {
      return Err(start.error);
    }
    var training := InOrder(q.evidence, Training);
    var heldOut := InOrder(q.evidence, HeldOut);
    StartIsPositive(h, q, scorer, earlier);
    LearnedStaysPositive(start.value, training);
    forall i | 0 <= i < |heldOut| ensures heldOut[i].selection.Some? {
      assert Learnable(heldOut[i]);
    }
    var prior := ObserveTraining(start.value, training);
    var posterior, observations := ObserveHeldOut(prior, heldOut);
    LearnedInTurn(start.value, q.evidence);
    LearnedStaysPositive(start.value, q.evidence);
    var result := ScorerOf(h, q, digest, prior, posterior);
    ReceiptObserves(h, q, digest, prior, posterior);
    assert result.receipt.observations == observations;
    if !ScorerValid(h, result) {
      return Err(ContractViolated);
    }
    return Ok(Fitted(result, ModelOf(h, q, digest, prior, posterior), PriorPackOf(q, digest, prior)));
  }

  method ObserveTraining(start: Beta, items: seq<Evidence>) returns (b: Beta)
    requires forall i :: 0 <= i < |items| ==> items[i].role == Training
    ensures b == Learned(start, items)
  {
    b := start;
    for i := 0 to |items|
      invariant b == Learned(start, items[..i])
    {
      assert items[..i + 1][..i] == items[..i];
      b := Observe(b, if items[i].survived then 1.0 else 0.0, 1.0);
    }
    assert items[..|items|] == items;
  }

  method ObserveHeldOut(start: Beta, items: seq<Evidence>) returns (b: Beta, observations: seq<Selection>)
    requires forall i :: 0 <= i < |items| ==> items[i].role == HeldOut && items[i].selection.Some?
    ensures b == Learned(start, items) && observations == Observations(items)
  {
    b, observations := start, [];
    for i := 0 to |items|
      invariant b == Learned(start, items[..i]) && observations == Observations(items[..i])
    {
      assert items[..i + 1][..i] == items[..i];
      var selection := items[i].selection.value;
      b := Observe(b, selection.outcome, selection.weight);
      observations := observations + [selection];
    }
    assert items[..|items|] == items;
  }

  // ----- When an admitted request can be fitted -----

  lemma {:induction false} DecisionListMeans(s: seq<Evidence>)
    requires forall i :: 0 <= i < |s| ==> s[i].role == HeldOut && s[i].selection.Some?
    ensures |DecisionList(s)| == |s| && Elements(DecisionList(s)) == Decisions(s)
  {
    if s != [] {
      DecisionListMeans(s[..|s| - 1]);
      assert DecisionList(s) == DecisionList(s[..|s| - 1]) + [s[|s| - 1].selection.value.decisionRef];
    }
  }

  lemma {:induction false} ChosenDecisions(s: seq<Evidence>)
    ensures Decisions(Chosen(s, HeldOut)) == Decisions(s)
  {
    if s != [] {
      var e := s[|s| - 1];
      ChosenDecisions(s[..|s| - 1]);
      if e.role == HeldOut {
        assert Chosen(s, HeldOut)[..|Chosen(s, HeldOut)| - 1] == Chosen(s[..|s| - 1], HeldOut);
      } else {
        assert Chosen(s, HeldOut) == Chosen(s[..|s| - 1], HeldOut);
      }
    }
  }

  /** Two listings of the same evidence collect the same things. */
  lemma CollectedIgnoreOrder(s: seq<Evidence>, t: seq<Evidence>)
    requires multiset(s) == multiset(t)
    ensures Lineages(s) == Lineages(t) && Decisions(s) == Decisions(t) && Sources(s) == Sources(t)
  {
    hide Lineages, Decisions, Sources, Roles;
    CollectedWithin(s, t);
    CollectedWithin(t, s);
  }

  lemma CollectedWithin(s: seq<Evidence>, t: seq<Evidence>)
    requires multiset(s) == multiset(t)
    ensures Lineages(s) <= Lineages(t) && Decisions(s) <= Decisions(t) && Sources(s) <= Sources(t)
  {
    hide Lineages, Decisions, Sources, Roles, Decision;
    forall x ensures (x in Lineages(s) ==> x in Lineages(t)) && (x in Decisions(s) ==> x in Decisions(t))
                  && (x in Sources(s) ==> x in Sources(t)) {
      CollectedMean(s, x, Training);
      CollectedMean(t, x, Training);
      forall i | 0 <= i < |s| ensures s[i] in t {
        assert s[i] in multiset(s);
      }
    }
  }

  lemma SameLength<T>(s: seq<T>, t: seq<T>)
    requires multiset(s) == multiset(t)
    ensures |s| == |t| && (set x | x in s) == (set x | x in t)
  {
    assert |multiset(s)| == |s| && |multiset(t)| == |t|;
    assert forall x :: x in s <==> x in multiset(s);
    assert forall x :: x in t <==> x in multiset(t);
  }

  lemma DistinctIgnoresOrder<T>(s: seq<T>, t: seq<T>)
    requires multiset(s) == multiset(t)
    ensures Distinct(s) <==> Distinct(t)
  {
    SameLength(s, t);
    CardinalityTellsDistinct(s);
    CardinalityTellsDistinct(t);
  }

  lemma {:induction false} ChosenKeepsLineages(s: seq<Evidence>, role: Role)
    requires OneLineageEach(s)
    ensures OneLineageEach(Chosen(s, role))
  {
    if s != [] {
      ChosenKeepsLineages(s[..|s| - 1], role);
    }
  }

  /** With one lineage each, sorting by lineage leaves no choice. */
  lemma LineagesInOrder(s: seq<Evidence>, t: seq<Evidence>)
    requires OneLineageEach(s) && multiset(s) == multiset(t)
    ensures OneLineageEach(t) && TellsApart(LineageLeq, s)
  {
    LeqIsTotal();
    assert Distinct(s);
    DistinctIgnoresOrder(s, t);
    forall i, j | 0 <= i < j < |t| ensures t[i].lineage != t[j].lineage {
      assert t[i] in multiset(t) && t[j] in multiset(t);
      assert t[i] in s && t[j] in s;
    }
  }

  /** An admitted request's held-out evidence, sorted, has one lineage and one selection per item. */
  lemma HeldOutIsProper(q: Request, expected: Kind)
    requires Admitted(q, expected)
    ensures OneLineageEach(InOrder(q.evidence, HeldOut)) && InOrder(q.evidence, HeldOut) != []
    ensures forall i :: 0 <= i < |InOrder(q.evidence, HeldOut)| ==> InOrder(q.evidence, HeldOut)[i].selection.Some?
    ensures Decisions(InOrder(q.evidence, HeldOut)) == Elements(q.decisionRefs)
  {
    hide InOrder, Decisions, Lineages, Sources, Chosen, Admitted;
    var heldOut := InOrder(q.evidence, HeldOut);
    AdmittedHasLineages(q, expected);
    AdmittedRefs(q, expected);
    ChosenKeepsLineages(q.evidence, HeldOut);
    LineagesInOrder(Chosen(q.evidence, HeldOut), heldOut);
    CollectedIgnoreOrder(Chosen(q.evidence, HeldOut), heldOut);
    ChosenDecisions(q.evidence);
    SomethingHeldOut(q, expected);
    HeldOutIsAdmitted(q, expected);
    assert forall i :: 0 <= i < |heldOut| ==> ItemAdmitted(heldOut[i]);
  }

  lemma AdmittedRefs(q: Request, expected: Kind)
    requires Admitted(q, expected)
    ensures Elements(q.decisionRefs) == Decisions(q.evidence) && Elements(q.sourceRefs) == Sources(q.evidence)
  {
    hide Decisions, Sources, ItemAdmitted, HeaderFault;
    ListsEvidence(q, q.decisionRefs, q.sourceRefs);
  }

  lemma SomethingHeldOut(q: Request, expected: Kind)
    requires Admitted(q, expected)
    ensures InOrder(q.evidence, HeldOut) != []
  {
    hide Decisions, Lineages, Sources, Roles, InOrder;
    var k :| 0 <= k < |q.evidence| && q.evidence[k].role == HeldOut;
    ChosenHas(q.evidence, k);
    assert q.evidence[k] in multiset(InOrder(q.evidence, HeldOut));
  }

  lemma {:induction false} ChosenHas(s: seq<Evidence>, k: nat)
    requires k < |s|
    ensures s[k] in Chosen(s, s[k].role)
  {
    if k < |s| - 1 {
      ChosenHas(s[..|s| - 1], k);
    }
  }

  lemma SortedTest(s: seq<string>)
    ensures Summary(SortStrings(s)) <==> s != [] && |Elements(s)| == |s|
  {
    var r := SortStrings(s);
    CanonicalTest(r, Elements(r));
    SameLength(s, r);
    CardinalityTellsDistinct(r);
  }

  lemma RefsAreCanonical(q: Request, expected: Kind)
    requires Admitted(q, expected)
    ensures Canonical(q.decisionRefs)
  {
  }

  lemma ListsAreCanonical(q: Request, expected: Kind)
    requires Admitted(q, expected)
    ensures var heldOut := InOrder(q.evidence, HeldOut);
            Summary(SortStrings(LineageIds(heldOut)))
            && (Summary(SortStrings(DecisionList(heldOut))) <==> |q.decisionRefs| == |heldOut|)
  {
    hide InOrder, DecisionList, Decisions, Summary, Admitted;
    var heldOut := InOrder(q.evidence, HeldOut);
    HeldOutIsProper(q, expected);
    var ids := LineageIds(heldOut);
    assert Distinct(ids);
    DistinctCardinality(ids);
    SortedTest(ids);
    SameLength(ids, SortStrings(ids));
    DecisionListMeans(heldOut);
    SortedTest(DecisionList(heldOut));
    SameLength(DecisionList(heldOut), SortStrings(DecisionList(heldOut)));
    RefsAreCanonical(q, expected);
    DistinctCardinality(q.decisionRefs);
  }

  lemma DigestsAreDigests(h: Hashing, p: Payload)
    requires WellHashed(h)
    ensures IsDigest(Digest(h, p)) && !Blank(Digest(h, p)) && IsHex64(h.hex(p))
  {
    assert IsHex64(h.hex(p));
    assert Digest(h, p)[7..] == h.hex(p) && Digest(h, p)[0] == 's';
  }

  /** The scorer itself passes every validator exactly when its decision list repeats nothing. */
  lemma ScorerPasses(h: Hashing, q: Request, expected: Kind, digest: string, prior: Beta, posterior: Beta)
    requires WellHashed(h) && Admitted(q, expected) && Positive(prior) && Positive(posterior)
    ensures ScorerValid(h, ScorerOf(h, q, digest, prior, posterior)) <==> |q.decisionRefs| == |InOrder(q.evidence, HeldOut)|
  {
    hide InOrder, DecisionList, Observations, SortStrings, Summary, LineageIds, Identified, Digest, WellHashed, ScorerId, Version;
    ListsAreCanonical(q, expected);
    ScorerIsIdentified(h, q, digest, prior, posterior);
    HeaderOf(q, expected);
  }

  lemma HeaderOf(q: Request, expected: Kind)
    requires Admitted(q, expected)
    ensures InUnit(q.floor) && (q.live ==> q.oracle == Live)
  {
  }

  lemma ScorerIsIdentified(h: Hashing, q: Request, digest: string, prior: Beta, posterior: Beta)
    requires WellHashed(h) && Positive(posterior)
    ensures Identified(h, ScorerOf(h, q, digest, prior, posterior))
  {
    hide InOrder, DecisionList, Observations, SortStrings, PriorPackOf, LineageIds, IsDigest, IsHex64, Digest, WellHashed;
    var s := ScorerOf(h, q, digest, prior, posterior);
    var pack := PriorPackOf(q, digest, prior);
    var model := ModelOf(h, q, digest, prior, posterior);
    DigestsAreDigests(h, pack);
    DigestsAreDigests(h, model);
    DigestsAreDigests(h, ReceiptValue(s.receipt));
    assert s.scorerId[0] == 'c' && s.version[0] == 'b' && s.receipt.kind[0] == 'c';
    assert SCORER_MEDIA[0] == 'a' && PRIOR_MEDIA[0] == 'a';
    assert s.model.mediaType[0] == 'a' && s.priorPack.mediaType[0] == 'a';
  }

  /** The previous scorer is the one named, and belongs to the same scope. */
  ghost predicate PreviousGiven(q: Request, scorer: Option<Scorer>, earlier: Option<Request>) {
    && scorer.Some? && earlier.Some? && q.previous.Some? && Names(q.previous.value, scorer.value)
    && earlier.value.scope == q.scope
  }

  /** Evidence the request shares with the request before it. */
  ghost predicate FreshLineages(q: Request, earlier: Request) {
    Lineages(earlier.evidence) * Lineages(q.evidence) == {}
  }

  /** An admitted request, with the previous scorer it names, is fitted exactly when no decision
      is used by two held-out items and a refit brings fresh lineages. */
  lemma AdmittedFitSucceedsIff(h: Hashing, q: Request, expected: Kind, digest: string, scorer: Option<Scorer>, earlier: Option<Request>)
    requires PriorScorer(h, scorer) && Admitted(q, expected)
    requires expected == Refit ==> PreviousGiven(q, scorer, earlier)
    ensures FitOf(h, q, digest, scorer, earlier).Ok? <==>
            |q.decisionRefs| == |Chosen(q.evidence, HeldOut)| && (expected == Refit ==> FreshLineages(q, earlier.value))
  {
    hide ScorerOf, InOrder, ScorerValid, Lineages, Learned, Chosen;
    assert q.kind == expected;
    AdmittedIsLearnable(q, expected);
    SameLength(InOrder(q.evidence, HeldOut), Chosen(q.evidence, HeldOut));
    var start := StartingPrior(q, scorer, earlier);
    if start.Ok? {
      StartIsPositive(h, q, scorer, earlier);
      LearnedStaysPositive(start.value, InOrder(q.evidence, Training));
      LearnedStaysPositive(start.value, q.evidence);
      ScorerPasses(h, q, expected, digest, Learned(start.value, InOrder(q.evidence, Training)), Learned(start.value, q.evidence));
    }
  }

  lemma AdmittedIsLearnable(q: Request, expected: Kind)
    requires Admitted(q, expected)
    ensures LearningFault(q.evidence) == None && forall i :: 0 <= i < |q.evidence| ==> Learnable(q.evidence[i])
  {
    forall i | 0 <= i < |q.evidence| ensures Learnable(q.evidence[i]) {
      assert ItemAdmitted(q.evidence[i]);
    }
  }

  /** What a fit reports: beliefs that are sums over the evidence, a valid scorer, descriptors
      that are the digests of the payloads, and acceptance by the posterior mean. */
  ghost predicate Reports(h: Hashing, q: Request, digest: string, start: Beta, f: Fitted)
    requires WellHashed(h)
  {
    var s := f.scorer;
    && ScorerValid(h, s) && s.scorerId == ScorerId(h, q.scope)
    && s.prior == Learned(start, InOrder(q.evidence, Training)) && s.posterior == Learned(start, q.evidence)
    && s.model == Describe(h, f.model, ScorerModel, SCORER_MEDIA)
    && s.priorPack == Describe(h, f.priorPack, PriorPack, PRIOR_MEDIA) && s.priorPackId == s.priorPack.id
    && f.priorPack.PriorValue? && f.priorPack.prior == s.prior && f.priorPack.requestDigest == digest
    && f.model.ModelValue? && f.model.posterior == s.posterior && f.model.requestDigest == digest && f.model.scorerId == s.scorerId
    && (s.accepted <==> s.posterior.alpha >= q.floor * (s.posterior.alpha + s.posterior.beta))
  }

  lemma FittedFacts(h: Hashing, q: Request, digest: string, scorer: Option<Scorer>, earlier: Option<Request>)
    requires PriorScorer(h, scorer) && FitOf(h, q, digest, scorer, earlier).Ok?
    ensures StartingPrior(q, scorer, earlier).Ok?
    ensures Reports(h, q, digest, StartingPrior(q, scorer, earlier).value, FitOf(h, q, digest, scorer, earlier).value)
  {
    hide Reports, Concluded, StartingPrior, ScorerValid;
    StartIsPositive(h, q, scorer, earlier);
    ConcludedReports(h, q, digest, StartingPrior(q, scorer, earlier).value);
  }

  lemma ConcludedReports(h: Hashing, q: Request, digest: string, start: Beta)
    requires WellHashed(h) && Positive(start) && forall i :: 0 <= i < |q.evidence| ==> Learnable(q.evidence[i])
    requires Concluded(h, q, digest, start).Ok?
    ensures Reports(h, q, digest, start, Concluded(h, q, digest, start).value)
  {
    hide InOrder, Observations, DecisionList, LineageIds, SortStrings, Learned, ScorerValid, Learnable, ScorerId, Digest, Version;
    LearnedStaysPositive(start, q.evidence);
    var posterior := Learned(start, q.evidence);
    QuotientFloor(posterior.alpha, posterior.alpha + posterior.beta, q.floor);
  }

  lemma QuotientFloor(a: real, total: real, floor: real)
    requires total > 0.0
    ensures a / total >= floor <==> a >= floor * total
  {
    assert a == (a / total) * total;
  }

  // ----- Reported outcomes -----

  lemma SelectionNear(s: Selection)
    requires SelectionAdmitted(s)
    ensures Abs(s.outcome * s.weight - s.weighted) <= TOLERANCE * Max(1.0, s.weight)
  {
    hide NearProduct, NearRatio, Blank, Abs, Max;
    ProductNear(s.weighted, s.outcome, s.weight);
  }

  lemma ProductNear(x: real, a: real, w: real)
    requires InUnit(a) && 0.0 <= x <= w && NearProduct(x, a, w)
    ensures Abs(a * w - x) <= TOLERANCE * Max(1.0, w)
  {
    var product := a * w;
    PortionOf(a, w, product);
    assert Near(x, product);
    NearWithin(x, product, w);
  }

  lemma ProductNonNegative(x: real, y: real)
    requires x >= 0.0 && y >= 0.0
    ensures x * y >= 0.0
  {
  }

  lemma PortionOf(x: real, w: real, p: real)
    requires InUnit(x) && w >= 0.0 && p == x * w
    ensures 0.0 <= p <= w
  {
    ProductNonNegative(x, w);
    ProductNonNegative(1.0 - x, w);
    assert (1.0 - x) * w == w - p;
  }

  lemma NearWithin(a: real, b: real, w: real)
    requires 0.0 <= a <= w && 0.0 <= b <= w && Near(a, b)
    ensures Abs(b - a) <= TOLERANCE * Max(1.0, w)
  {
  }

  lemma {:induction false} CreditNearReported(s: seq<Evidence>)
    requires forall i :: 0 <= i < |s| ==> s[i].role == HeldOut && ItemAdmitted(s[i])
    ensures Abs(Sum(Credit, s) - Sum(Reported, s)) <= Sum(Slack, s)
  {
    hide SelectionAdmitted, TextsAdmitted;
    if s != [] {
      var e := s[|s| - 1];
      CreditNearReported(s[..|s| - 1]);
      assert ItemAdmitted(e);
      SelectionNear(e.selection.value);
      assert Abs(Credit(e) - Reported(e)) <= Slack(e);
    }
  }

  /** The fitted posterior agrees with the outcomes the evidence reported, up to the admitted rounding. */
  lemma PosteriorNearReported(h: Hashing, q: Request, expected: Kind, digest: string, scorer: Option<Scorer>, earlier: Option<Request>)
    requires PriorScorer(h, scorer) && Admitted(q, expected) && FitOf(h, q, digest, scorer, earlier).Ok?
    ensures var s := FitOf(h, q, digest, scorer, earlier).value.scorer;
            var heldOut := InOrder(q.evidence, HeldOut);
            Abs(s.posterior.alpha - (s.prior.alpha + Sum(Reported, heldOut))) <= Sum(Slack, heldOut)
  {
    hide InOrder, FitOf, Sum, StartingPrior, ScorerValid, Admitted;
    FittedFacts(h, q, digest, scorer, earlier);
    LearnedInTurn(StartingPrior(q, scorer, earlier).value, q.evidence);
    HeldOutIsAdmitted(q, expected);
    CreditNearReported(InOrder(q.evidence, HeldOut));
  }

  lemma HeldOutIsAdmitted(q: Request, expected: Kind)
    requires Admitted(q, expected)
    ensures forall i :: 0 <= i < |InOrder(q.evidence, HeldOut)| ==> ItemAdmitted(InOrder(q.evidence, HeldOut)[i])
  {
    hide InOrder, ItemAdmitted;
    var heldOut := InOrder(q.evidence, HeldOut);
    forall i | 0 <= i < |heldOut| ensures ItemAdmitted(heldOut[i]) {
      var j :| 0 <= j < |q.evidence| && q.evidence[j] == heldOut[i];
    }
  }

  // ----- Order of evidence -----

  lemma {:induction false} ChosenCounts(s: seq<Evidence>, role: Role, e: Evidence)
    ensures multiset(Chosen(s, role))[e] == if e.role == role then multiset(s)[e] else 0
  {
    if s != [] {
      ChosenCounts(s[..|s| - 1], role, e);
      assert s == s[..|s| - 1] + [s[|s| - 1]];
    }
  }

  lemma InOrderIgnoresOrder(s: seq<Evidence>, t: seq<Evidence>, role: Role)
    requires OneLineageEach(s) && multiset(s) == multiset(t)
    ensures InOrder(s, role) == InOrder(t, role)
  {
    hide Chosen, InOrder;
    forall e ensures multiset(Chosen(s, role))[e] == multiset(Chosen(t, role))[e] {
      ChosenCounts(s, role, e);
      ChosenCounts(t, role, e);
    }
    assert multiset(Chosen(s, role)) == multiset(Chosen(t, role));
    ChosenKeepsLineages(s, role);
    LineageLeqIsTotal();
    LineagesInOrder(Chosen(s, role), InOrder(s, role));
    LineagesInOrder(InOrder(s, role), InOrder(t, role));
    SortedUnique(LineageLeq, InOrder(s, role), InOrder(t, role));
  }

  /** Listing the same evidence in another order changes neither admission nor any part of the fit. */
  lemma FitIgnoresEvidenceOrder(
    h: Hashing, q: Request, other: Request, expected: Kind, digest: string, scorer: Option<Scorer>, earlier: Option<Request>)
    requires PriorScorer(h, scorer) && Admitted(q, expected)
    requires other == q.(evidence := other.evidence) && multiset(q.evidence) == multiset(other.evidence)
    ensures Admitted(other, expected) && FitOf(h, q, digest, scorer, earlier) == FitOf(h, other, digest, scorer, earlier)
  {
    hide Admitted, Lineages, ScorerValid, Concluded;
    AdmissionIgnoresOrder(q, other, expected);
    AdmittedIsLearnable(q, expected);
    AdmittedIsLearnable(other, expected);
    CollectedIgnoreOrder(q.evidence, other.evidence);
    assert StartingPrior(q, scorer, earlier) == StartingPrior(other, scorer, earlier);
    if StartingPrior(q, scorer, earlier).Ok? {
      StartIsPositive(h, q, scorer, earlier);
      AdmittedHasLineages(q, expected);
      ConcludedIgnoresOrder(h, q, other, digest, StartingPrior(q, scorer, earlier).value);
    }
  }

  lemma LearnedIgnoresOrder(start: Beta, s: seq<Evidence>, t: seq<Evidence>)
    requires multiset(s) == multiset(t)
    ensures Learned(start, s) == Learned(start, t)
  {
    SumIgnoresOrder(Credit, s, t);
    SumIgnoresOrder(Debit, s, t);
  }

  lemma ConcludedIgnoresOrder(h: Hashing, q: Request, other: Request, digest: string, start: Beta)
    requires WellHashed(h) && OneLineageEach(q.evidence) && Positive(start)
    requires forall i :: 0 <= i < |q.evidence| ==> Learnable(q.evidence[i])
    requires forall i :: 0 <= i < |other.evidence| ==> Learnable(other.evidence[i])
    requires other == q.(evidence := other.evidence) && multiset(q.evidence) == multiset(other.evidence)
    ensures Concluded(h, q, digest, start) == Concluded(h, other, digest, start)
  {
    hide InOrder, SortStrings, DecisionList, LineageIds, Observations, Learned, Digest, ScorerId, Learnable, WellHashed, ScorerValid;
    InOrderIgnoresOrder(q.evidence, other.evidence, Training);
    InOrderIgnoresOrder(q.evidence, other.evidence, HeldOut);
    LearnedIgnoresOrder(start, q.evidence, other.evidence);
  }

  /** What a scorer believes and decides, apart from the identities that hold its request's digest. */
  ghost predicate SameBelief(s: Scorer, t: Scorer) {
    && s.prior == t.prior && s.posterior == t.posterior && s.accepted == t.accepted && s.floor == t.floor
    && s.scorerId == t.scorerId && s.lineages == t.lineages && s.decisionRefs == t.decisionRefs
  }

  lemma ScorerLists(h: Hashing, q: Request, digest: string, prior: Beta, posterior: Beta)
    requires WellHashed(h) && Positive(posterior)
    ensures var s := ScorerOf(h, q, digest, prior, posterior);
            var heldOut := InOrder(q.evidence, HeldOut);
            s.lineages == SortStrings(LineageIds(heldOut)) && s.decisionRefs == SortStrings(DecisionList(heldOut)) && s.floor == q.floor
  {
    hide InOrder, Observations, DecisionList, LineageIds, SortStrings, Digest, ScorerId, Version;
  }

  /** The lists a concluded scorer carries do not depend on the digest. */
  lemma ConcludedLists(h: Hashing, q: Request, digest: string, start: Beta)
    requires WellHashed(h) && Positive(start) && forall i :: 0 <= i < |q.evidence| ==> Learnable(q.evidence[i])
    requires Concluded(h, q, digest, start).Ok?
    ensures var s := Concluded(h, q, digest, start).value.scorer;
            var heldOut := InOrder(q.evidence, HeldOut);
            s.lineages == SortStrings(LineageIds(heldOut)) && s.decisionRefs == SortStrings(DecisionList(heldOut)) && s.floor == q.floor
  {
    hide InOrder, ScorerOf, ModelOf, PriorPackOf, DecisionList, LineageIds, SortStrings, Learned, ScorerValid, Learnable;
    LearnedStaysPositive(start, q.evidence);
    ScorerLists(h, q, digest, Learned(start, InOrder(q.evidence, Training)), Learned(start, q.evidence));
  }

  /** The digest under which a request is fitted changes neither whether it is nor what is believed. */
  lemma DigestOnlyNames(h: Hashing, q: Request, expected: Kind, d: string, e: string, start: Beta)
    requires WellHashed(h) && Admitted(q, expected) && Positive(start)
    requires forall i :: 0 <= i < |q.evidence| ==> Learnable(q.evidence[i])
    ensures var r, t := Concluded(h, q, d, start), Concluded(h, q, e, start);
            if r.Ok? then t.Ok? && SameBelief(r.value.scorer, t.value.scorer) else r == t
  {
    ConcludedIff(h, q, expected, d, start);
    ConcludedIff(h, q, expected, e, start);
    hide Admitted, Concluded, InOrder, Learned, DecisionList, LineageIds, SortStrings, ScorerValid, Learnable, Digest, ScorerId;
    hide Reports, SameBelief;
    if Concluded(h, q, d, start).Ok? {
      var f, g := Concluded(h, q, d, start).value, Concluded(h, q, e, start).value;
      ConcludedReports(h, q, d, start);
      ConcludedReports(h, q, e, start);
      ConcludedLists(h, q, d, start);
      ConcludedLists(h, q, e, start);
      ReportsAgree(h, q, d, e, start, f, g);
    }
  }

  lemma ReportsAgree(h: Hashing, q: Request, d: string, e: string, start: Beta, f: Fitted, g: Fitted)
    requires WellHashed(h) && Reports(h, q, d, start, f) && Reports(h, q, e, start, g)
    requires f.scorer.lineages == g.scorer.lineages && f.scorer.decisionRefs == g.scorer.decisionRefs
    requires f.scorer.floor == g.scorer.floor == q.floor
    ensures SameBelief(f.scorer, g.scorer)
  {
    hide InOrder, Learned, ScorerValid, Digest, ScorerId, Describe;
  }

  lemma ConcludedIff(h: Hashing, q: Request, expected: Kind, digest: string, start: Beta)
    requires WellHashed(h) && Admitted(q, expected) && Positive(start)
    requires forall i :: 0 <= i < |q.evidence| ==> Learnable(q.evidence[i])
    ensures Concluded(h, q, digest, start).Ok? <==> |q.decisionRefs| == |InOrder(q.evidence, HeldOut)|
    ensures Concluded(h, q, digest, start).Err? ==> Concluded(h, q, digest, start).error == ContractViolated
  {
    hide Admitted, InOrder, ScorerOf, ModelOf, PriorPackOf, Learned, ScorerValid, Learnable;
    LearnedStaysPositive(start, q.evidence);
    var training := InOrder(q.evidence, Training);
    LearnedStaysPositive(start, training);
    ScorerPasses(h, q, expected, digest, Learned(start, training), Learned(start, q.evidence));
  }

  /** The digest a request is accepted under, which depends on how its evidence is listed. */
  function OwnDigest(h: Hashing, q: Request): string {
    Digest(h, RequestValue(q))
  }

  /** Each listing of the same evidence under its own digest: both are fitted with the same prior,
      posterior, acceptance and lists, or both are refused with the same error. */
  lemma OwnDigestsAgree(h: Hashing, q: Request, other: Request, expected: Kind, scorer: Option<Scorer>, earlier: Option<Request>)
    requires PriorScorer(h, scorer) && Admitted(q, expected)
    requires other == q.(evidence := other.evidence) && multiset(q.evidence) == multiset(other.evidence)
    ensures var r, t := FitOf(h, q, OwnDigest(h, q), scorer, earlier), FitOf(h, other, OwnDigest(h, other), scorer, earlier);
            if r.Ok? then t.Ok? && SameBelief(r.value.scorer, t.value.scorer) else r == t
  {
    FitIgnoresEvidenceOrder(h, q, other, expected, OwnDigest(h, other), scorer, earlier);
    AdmittedIsLearnable(q, expected);
    hide Admitted, Concluded, StartingPrior, OwnDigest, SameBelief, FitOf;
    StartIsPositive(h, q, scorer, earlier);
    LearnableFit(h, q, OwnDigest(h, q), scorer, earlier);
    LearnableFit(h, q, OwnDigest(h, other), scorer, earlier);
    if StartingPrior(q, scorer, earlier).Ok? {
      DigestOnlyNames(h, q, expected, OwnDigest(h, q), OwnDigest(h, other), StartingPrior(q, scorer, earlier).value);
    }
  }

  lemma LearnableFit(h: Hashing, q: Request, digest: string, scorer: Option<Scorer>, earlier: Option<Request>)
    requires PriorScorer(h, scorer) && forall i :: 0 <= i < |q.evidence| ==> Learnable(q.evidence[i])
    ensures var start := StartingPrior(q, scorer, earlier);
            && (start.Ok? ==> Positive(start.value))
            && FitOf(h, q, digest, scorer, earlier) == if start.Err? then Err(start.error) else Concluded(h, q, digest, start.value)
  {
    hide Concluded, StartingPrior, Learnable;
    StartIsPositive(h, q, scorer, earlier);
  }

  lemma AdmittedHasLineages(q: Request, expected: Kind)
    requires Admitted(q, expected)
    ensures OneLineageEach(q.evidence)
  {
  }

  lemma AdmissionIgnoresOrder(q: Request, other: Request, expected: Kind)
    requires Admitted(q, expected)
    requires other == q.(evidence := other.evidence) && multiset(q.evidence) == multiset(other.evidence)
    ensures Admitted(other, expected)
  {
    hide Lineages, Decisions, Sources, Roles, ItemAdmitted, IsDigest, Blank;
    CollectedIgnoreOrder(q.evidence, other.evidence);
    AdmittedRefs(q, expected);
    ListsEvidence(other, q.decisionRefs, q.sourceRefs);
    LineagesInOrder(q.evidence, other.evidence);
    SameLength(q.evidence, other.evidence);
    forall i | 0 <= i < |other.evidence| ensures ItemAdmitted(other.evidence[i]) {
      assert other.evidence[i] in multiset(q.evidence);
    }
    forall i | 0 <= i < |q.evidence| ensures q.evidence[i] in other.evidence {
      assert q.evidence[i] in multiset(other.evidence);
    }
  }
}
