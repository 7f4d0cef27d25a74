// Chains of refits: what the posterior at the end of any chain is, and how far the
// overlap check between a refit and its predecessor reaches.

module CompetenceChains {
  import opened Common
  import opened Ordering
  import opened CompetenceContract
  import opened CompetenceFit

  datatype Link = Link(request: Request, digest: string, fitted: Fitted)

  ghost predicate Opens(h: Hashing, l: Link) {
    WellHashed(h) && l.request.kind == Fit && FitOf(h, l.request, l.digest, None, None) == Ok(l.fitted)
  }

  ghost predicate Follows(h: Hashing, a: Link, b: Link) {
    && PriorScorer(h, Some(a.fitted.scorer)) && b.request.kind == Refit
    && FitOf(h, b.request, b.digest, Some(a.fitted.scorer), Some(a.request)) == Ok(b.fitted)
  }

  /** One fit followed by refits, each naming the scorer before it. */
  ghost predicate Chain(h: Hashing, links: seq<Link>) {
    links != [] &&
    if |links| == 1 then Opens(h, links[0])
    else Chain(h, links[..|links| - 1]) && Follows(h, links[|links| - 2], links[|links| - 1])
  }

  function Last(links: seq<Link>): Link
    requires links != []
  {
    links[|links| - 1]
  }

  /** All the evidence the chain consumed. */
  function Pool(links: seq<Link>): seq<Evidence> {
    if links == [] then [] else Pool(links[..|links| - 1]) + links[|links| - 1].request.evidence
  }

  const UNIFORM := Beta(1.0, 1.0)

  function Posterior(l: Link): Beta {
    l.fitted.scorer.posterior
  }

  lemma LearnedFurther(start: Beta, s: seq<Evidence>, t: seq<Evidence>)
    ensures Learned(Learned(start, s), t) == Learned(start, s + t)
  {
    SumSplits(Credit, s, t);
    SumSplits(Debit, s, t);
  }

  /** What one refit step fixes. */
  lemma StepFacts(h: Hashing, a: Link, b: Link)
    requires Follows(h, a, b)
    ensures Posterior(b) == Learned(Posterior(a), b.request.evidence)
    ensures b.fitted.scorer.prior == Learned(Posterior(a), InOrder(b.request.evidence, Training))
    ensures a.request.scope == b.request.scope && FreshLineages(b.request, a.request)
    ensures b.request.previous.Some? && Names(b.request.previous.value, a.fitted.scorer)
    ensures ScorerValid(h, b.fitted.scorer)
  {
    hide FitOf, Learned, InOrder, Lineages;
    FittedFacts(h, b.request, b.digest, Some(a.fitted.scorer), Some(a.request));
  }

  lemma OpeningFacts(h: Hashing, l: Link)
    requires Opens(h, l)
    ensures Posterior(l) == Learned(UNIFORM, l.request.evidence) && ScorerValid(h, l.fitted.scorer)
    ensures l.fitted.scorer.prior == Learned(UNIFORM, InOrder(l.request.evidence, Training))
  {
    hide FitOf, Learned, InOrder;
    FittedFacts(h, l.request, l.digest, None, None);
  }

  /** Along every chain, the posterior is the uniform prior plus all the evidence consumed. */
  lemma {:induction false} ChainAddsUp(h: Hashing, links: seq<Link>)
    requires Chain(h, links)
    ensures Posterior(Last(links)) == Learned(UNIFORM, Pool(links)) && ScorerValid(h, Last(links).fitted.scorer)
    ensures Last(links).fitted.scorer.prior ==
            Learned(UNIFORM, Pool(links[..|links| - 1]) + InOrder(Last(links).request.evidence, Training))
  {
    hide Learned, InOrder, ScorerValid;
    var n := |links| - 1;
    var last := Last(links);
    if n == 0 {
      OpeningFacts(h, last);
      assert Pool(links[..0]) == [] && Pool(links) == last.request.evidence;
      assert [] + InOrder(last.request.evidence, Training) == InOrder(last.request.evidence, Training);
    } else {
      ChainAddsUp(h, links[..n]);
      StepFacts(h, links[n - 1], last);
      LearnedFurther(UNIFORM, Pool(links[..n]), last.request.evidence);
      LearnedFurther(UNIFORM, Pool(links[..n]), InOrder(last.request.evidence, Training));
    }
  }

  function Weight(e: Evidence): real {
    if e.role == Training || e.selection.None? then 0.0 else e.selection.value.weight
  }

  lemma {:induction false} MassAddsUp(s: seq<Evidence>)
    ensures Sum(Credit, s) + Sum(Debit, s) == |Chosen(s, Training)| as real + Sum(Weight, s)
  {
    if s != [] {
      var e := s[|s| - 1];
      MassAddsUp(s[..|s| - 1]);
      assert Credit(e) + Debit(e) == (if e.role == Training then 1.0 else 0.0) + Weight(e) by {
        if e.role == HeldOut && e.selection.Some? {
          SharesAddUp(e.selection.value.outcome, e.selection.value.weight);
        }
      }
    }
  }

  lemma SharesAddUp(x: real, w: real)
    ensures x * w + (1.0 - x) * w == w
  {
  }

  /** Total belief mass grows by one per training item and by the weight of each held-out one. */
  lemma ChainMass(h: Hashing, links: seq<Link>)
    requires Chain(h, links)
    ensures Posterior(Last(links)).alpha + Posterior(Last(links)).beta ==
            2.0 + |Chosen(Pool(links), Training)| as real + Sum(Weight, Pool(links))
  {
    hide Chain, Sum, Chosen, InOrder, ScorerValid;
    ChainAddsUp(h, links);
    MassAddsUp(Pool(links));
  }

  /** However the same evidence is divided over fits and refits, the final belief is the same. */
  lemma ChainIgnoresArrangement(h: Hashing, links: seq<Link>, others: seq<Link>)
    requires Chain(h, links) && Chain(h, others) && multiset(Pool(links)) == multiset(Pool(others))
    ensures Posterior(Last(links)) == Posterior(Last(others))
  {
    hide Chain, Learned, InOrder, ScorerValid;
    ChainAddsUp(h, links);
    ChainAddsUp(h, others);
    LearnedIgnoresOrder(UNIFORM, Pool(links), Pool(others));
  }

  lemma ChainStep(h: Hashing, links: seq<Link>)
    requires Chain(h, links)
    ensures links != []
    ensures |links| > 1 ==> Chain(h, links[..|links| - 1]) && Follows(h, links[|links| - 2], links[|links| - 1])
  {
  }

  /** A chain stays within one scope, and each refit's evidence is new to its predecessor. */
  lemma {:induction false} ChainKeepsScope(h: Hashing, links: seq<Link>)
    requires Chain(h, links)
    ensures forall i :: 0 <= i < |links| ==> links[i].request.scope == links[0].request.scope
    ensures forall i :: 0 < i < |links| ==> FreshLineages(links[i].request, links[i - 1].request)
  {
    hide Chain, FitOf, FreshLineages, Follows, ScorerValid, Learned, InOrder;
    ChainStep(h, links);
    if |links| > 1 {
      var front, n := links[..|links| - 1], |links| - 1;
      ChainKeepsScope(h, front);
      NextKeepsScope(h, links[n - 1], links[n]);
      assert front[0] == links[0] && front[n - 1] == links[n - 1];
      assert forall i :: 0 <= i < n ==> front[i] == links[i];
    }
  }

  lemma NextKeepsScope(h: Hashing, a: Link, b: Link)
    requires Follows(h, a, b)
    ensures b.request.scope == a.request.scope && FreshLineages(b.request, a.request)
  {
    hide FitOf, Learned, InOrder, Lineages, ScorerValid;
    StepFacts(h, a, b);
  }

  // ----- How far the overlap check reaches -----

  lemma {:induction false} LineagesOfBoth(s: seq<Evidence>, t: seq<Evidence>)
    ensures Lineages(s + t) == Lineages(s) + Lineages(t)
  {
    if t == [] {
      assert s + t == s;
    } else {
      assert (s + t)[..|s + t| - 1] == s + t[..|t| - 1];
      LineagesOfBoth(s, t[..|t| - 1]);
    }
  }

  lemma SharedIsRepeated(s: seq<Evidence>, t: seq<Evidence>, x: string)
    requires x in Lineages(s) && x in Lineages(t)
    ensures !OneLineageEach(s + t)
  {
    hide Lineages;
    CollectedMean(s, x, Training);
    CollectedMean(t, x, Training);
    var i :| 0 <= i < |s| && s[i].lineage == x;
    var j :| 0 <= j < |t| && t[j].lineage == x;
    assert (s + t)[i] == s[i] && (s + t)[|s| + j] == t[j];
  }

  lemma PartsHaveOneEach(s: seq<Evidence>, t: seq<Evidence>)
    requires OneLineageEach(s + t)
    ensures OneLineageEach(s) && OneLineageEach(t)
  {
    forall i, j | 0 <= i < j < |s| ensures s[i].lineage != s[j].lineage {
      assert (s + t)[i] == s[i] && (s + t)[j] == s[j];
    }
    forall i, j | 0 <= i < j < |t| ensures t[i].lineage != t[j].lineage {
      assert (s + t)[|s| + i] == t[i] && (s + t)[|s| + j] == t[j];
    }
  }

  lemma ApartHaveOneEach(s: seq<Evidence>, t: seq<Evidence>)
    requires OneLineageEach(s) && OneLineageEach(t) && Lineages(s) * Lineages(t) == {}
    ensures OneLineageEach(s + t)
  {
    hide Lineages;
    forall i, j | 0 <= i < j < |s + t| ensures (s + t)[i].lineage != (s + t)[j].lineage {
      if i < |s| <= j {
        CollectedMean(s, s[i].lineage, Training);
        CollectedMean(t, t[j - |s|].lineage, Training);
        assert s[i].lineage in Lineages(s) && t[j - |s|].lineage in Lineages(t);
      }
    }
  }

  lemma OneEachOfBoth(s: seq<Evidence>, t: seq<Evidence>)
    ensures OneLineageEach(s + t) <==> OneLineageEach(s) && OneLineageEach(t) && Lineages(s) * Lineages(t) == {}
  {
    hide Lineages, OneLineageEach;
    if OneLineageEach(s + t) {
      PartsHaveOneEach(s, t);
      if x :| x in Lineages(s) * Lineages(t) {
        SharedIsRepeated(s, t, x);
      }
    } else if OneLineageEach(s) && OneLineageEach(t) && Lineages(s) * Lineages(t) == {} {
      ApartHaveOneEach(s, t);
    }
  }

  /** A refit leaves every lineage counted once exactly when its evidence is also new to all the
      requests before its predecessor, which the fitter does not check. */
  lemma ExtensionCountsOnceIff(h: Hashing, links: seq<Link>, b: Link)
    requires Chain(h, links) && Follows(h, Last(links), b) && Admitted(b.request, Refit)
    requires OneLineageEach(Pool(links))
    ensures OneLineageEach(Pool(links + [b])) <==>
            Lineages(Pool(links[..|links| - 1])) * Lineages(b.request.evidence) == {}
  {
    hide Lineages, OneLineageEach, Admitted, FitOf, ScorerValid, Follows, Learned, InOrder, Pool;
    StepFacts(h, Last(links), b);
    AdmittedHasLineages(b.request, Refit);
    OneEachOfBoth(Pool(links), b.request.evidence);
    PoolGrows(links, b);
    PoolGrows(links[..|links| - 1], Last(links));
    assert links[..|links| - 1] + [Last(links)] == links;
    LineagesOfBoth(Pool(links[..|links| - 1]), Last(links).request.evidence);
  }

  lemma PoolGrows(links: seq<Link>, b: Link)
    ensures Pool(links + [b]) == Pool(links) + b.request.evidence
  {
    assert (links + [b])[..|links|] == links;
  }

  function NameOf(s: Scorer): PreviousScorer {
    PreviousScorer(s.scorerId, s.version, s.model.id, s.priorPackId)
  }

  /** The evidence of a, submitted under a new operation id as a refit of the scorer s. */
  function Again(a: Request, s: Scorer, operationId: string): Request {
    a.(kind := Refit, previous := Some(NameOf(s)), operationId := operationId)
  }

  lemma AgainIsAdmitted(h: Hashing, a: Request, s: Scorer, operationId: string)
    requires Admitted(a, Fit) && ScorerValid(h, s) && !Blank(operationId) && |operationId| <= 128
    ensures Admitted(Again(a, s, operationId), Refit)
  {
    hide Lineages, Decisions, Sources, ItemAdmitted, IsHex64, Sorted;
  }

  /** So a lineage can be counted twice: after any fit a and any refit b of it, the evidence of a
      is admitted under any new operation id and fitted a second time. */
  lemma LineageMayReturn(h: Hashing, a: Link, b: Link, operationId: string)
    requires Opens(h, a) && Admitted(a.request, Fit) && Follows(h, a, b) && Admitted(b.request, Refit)
    requires !Blank(operationId) && |operationId| <= 128
    ensures exists c: Link ::
              && Chain(h, [a, b, c]) && c.request == Again(a.request, b.fitted.scorer, operationId)
              && c.digest == Digest(h, RequestValue(c.request)) && Admitted(c.request, Refit)
              && Posterior(c).alpha == 1.0 + 2.0 * Sum(Credit, a.request.evidence) + Sum(Credit, b.request.evidence)
  {
    hide FitOf, Lineages, InOrder, ScorerValid, Sum, Admitted, Blank;
    OpeningFacts(h, a);
    StepFacts(h, a, b);
    var q := Again(a.request, b.fitted.scorer, operationId);
    var digest := Digest(h, RequestValue(q));
    AgainIsAdmitted(h, a.request, b.fitted.scorer, operationId);
    KindOf(q, Refit);
    ValidScorerIsPositive(h, b.fitted.scorer);
    AdmittedFitSucceedsIff(h, a.request, Fit, a.digest, None, None);
    AdmittedFitSucceedsIff(h, q, Refit, digest, Some(b.fitted.scorer), Some(b.request));
    var c := Link(q, digest, FitOf(h, q, digest, Some(b.fitted.scorer), Some(b.request)).value);
    assert Follows(h, b, c);
    StepFacts(h, b, c);
    assert [a, b, c][..2] == [a, b] && [a, b][..1] == [a];
    assert Chain(h, [a]) && Chain(h, [a, b]);
    assert Chain(h, [a, b, c]);
  }

  lemma KindOf(q: Request, expected: Kind)
    requires Admitted(q, expected)
    ensures q.kind == expected
  {
  }
}
