// The wire contract of a competence fit: requests, scorers, what a scorer must satisfy,
// and the admission check that every request passes before a job exists.

module CompetenceContract {
  import opened Common
  import opened Ordering

  datatype Role = Training | HeldOut
  datatype Kind = Fit | Refit
  datatype EvidenceClass = DeterministicFixture | Local | Ci | Hosted | Live

  datatype Scope = Scope(tenant: string, project: string, packHash: string, candidate: string, candidateLineage: string)

  datatype Selection = Selection(
    decisionRef: string, policyId: string, policyVersion: nat, seed: nat,
    behavior: real, target: real, weight: real, outcome: real, weighted: real)

  datatype Evidence = Evidence(
    lineage: string, role: Role, episodeRef: string, episodeDigest: string, survived: bool,
    sourceRefs: seq<string>, selection: Option<Selection>)

  datatype PreviousScorer = PreviousScorer(scorerId: string, version: string, modelId: string, priorPackId: string)

  datatype Request = Request(
    contract: string, kind: Kind, operationId: string, scope: Scope,
    trainingDigest: string, evaluationDigest: string, evidence: seq<Evidence>,
    decisionRefs: seq<string>, sourceRefs: seq<string>, previous: Option<PreviousScorer>,
    floor: real, oracle: EvidenceClass, substitution: bool, live: bool)

  datatype Beta = Beta(alpha: real, beta: real)

  datatype ArtifactKind = ScorerModel | PriorPack
  datatype Artifact = Artifact(id: string, kind: ArtifactKind, payloadDigest: string, mediaType: string, byteLength: nat)

  datatype Metadata = Metadata(
    scope: Scope, evaluationDigest: string, version: string, modelDigest: string, priorPackId: string,
    lineages: seq<string>, decisionRefs: seq<string>)

  datatype ReceiptBody = ReceiptBody(
    kind: string, modelId: string, prior: Beta, observations: seq<Selection>, posterior: Beta, metadata: Metadata)

  datatype Scorer = Scorer(
    scorerId: string, version: string, model: Artifact, priorPackId: string, priorPack: Artifact,
    prior: Beta, posterior: Beta, receipt: ReceiptBody, receiptHash: string, floor: real,
    lineages: seq<string>, decisionRefs: seq<string>, oracle: EvidenceClass, evidenceClass: EvidenceClass,
    substitution: bool, live: bool, accepted: bool)

  /** Everything that is serialised and hashed; serialisation itself loses nothing. */
  datatype Payload =
    | RequestValue(request: Request)
    | ScopeValue(scope: Scope)
    | ReceiptValue(receipt: ReceiptBody)
    | PriorValue(requestDigest: string, scope: Scope, trainingDigest: string, prior: Beta,
                 trainingLineages: seq<string>, previous: Option<PreviousScorer>)
    | ModelValue(scorerId: string, version: string, requestDigest: string, scope: Scope,
                 trainingDigest: string, evaluationDigest: string, priorPackId: string, prior: Beta, posterior: Beta,
                 lineages: seq<string>, decisionRefs: seq<string>, previous: Option<PreviousScorer>)

  /** The hash and the serialised length, about which only the digest format is known. */
  datatype Hashing = Hashing(hex: Payload -> string, size: Payload -> nat)

  ghost predicate WellHashed(h: Hashing) {
    forall p :: IsHex64(h.hex(p))
  }

  function Digest(h: Hashing, p: Payload): string {
    "sha256:" + h.hex(p)
  }

  const CONTRACT := "theorem.competence.v1"
  const TOLERANCE: real := 0.000000000001

  // ----- Text -----

  /** The characters str.strip removes. */
  predicate IsSpace(c: char) {
    || '\U{0009}' <= c <= '\U{000D}' || '\U{001C}' <= c <= '\U{0020}' || c == '\U{0085}' || c == '\U{00A0}'
    || c == '\U{1680}' || '\U{2000}' <= c <= '\U{200A}' || '\U{2028}' <= c <= '\U{2029}' || c == '\U{202F}'
    || c == '\U{205F}' || c == '\U{3000}'
  }

  predicate Blank(s: string) {
    forall i :: 0 <= i < |s| ==> IsSpace(s[i])
  }

  predicate IsHex64(s: string) {
    |s| == 64 && forall i :: 0 <= i < 64 ==> '0' <= s[i] <= '9' || 'a' <= s[i] <= 'f'
  }

  predicate IsDigest(s: string) {
    |s| >= 7 && s[..7] == "sha256:" && IsHex64(s[7..])
  }

  /** Sorted without repetition: what comparing a list with its sorted set demands. */
  ghost predicate Canonical(s: seq<string>) {
    SortedBy(Leq, s) && Distinct(s)
  }

  function Sorted(s: set<string>): (r: seq<string>)
    ensures Canonical(r) && Elements(r) == s
  {
    LeqIsTotal();
    SortedSet(Leq, s)
  }

  /** The test made of every reference list: not empty, and equal to its own sorted set. */
  predicate Summary(s: seq<string>) {
    s != [] && s == Sorted(Elements(s))
  }

  lemma {:induction false} DistinctCounts(s: seq<string>)
    requires Distinct(s)
    ensures multiset(s) == multiset(Elements(s))
  {
    if s != [] {
      var n := |s| - 1;
      assert s == s[..n] + [s[n]];
      DistinctCounts(s[..n]);
      assert Elements(s) == Elements(s[..n]) + {s[n]} && s[n] !in Elements(s[..n]);
    }
  }

  lemma CanonicalIsUnique(s: seq<string>, t: seq<string>)
    requires Canonical(s) && Canonical(t) && Elements(s) == Elements(t)
    ensures s == t
  {
    LeqIsTotal();
    DistinctCounts(s);
    DistinctCounts(t);
    SortedUnique(Leq, s, t);
  }

  /** The test the code makes is exactly sortedness without repetition. */
  lemma CanonicalTest(s: seq<string>, all: set<string>)
    ensures s == Sorted(all) <==> Canonical(s) && Elements(s) == all
  {
    if Canonical(s) && Elements(s) == all {
      CanonicalIsUnique(s, Sorted(all));
    }
  }

  // ----- Scorer validators -----

  predicate Positive(b: Beta) {
    b.alpha > 0.0 && b.beta > 0.0
  }

  predicate ArtifactValid(a: Artifact) {
    a.id == a.payloadDigest && IsDigest(a.payloadDigest) && !Blank(a.mediaType)
  }

  predicate ReceiptValid(h: Hashing, r: ReceiptBody, hash: string) {
    !Blank(r.kind) && !Blank(r.modelId) && IsHex64(hash) && hash == h.hex(ReceiptValue(r))
  }

  function Rank(c: EvidenceClass): nat {
    match c
    case DeterministicFixture => 0
    case Local => 1
    case Ci => 2
    case Hosted => 3
    case Live => 4
  }

  /** The checks on identities, artifacts and the receipt. */
  predicate Identified(h: Hashing, s: Scorer) {
    && ArtifactValid(s.model) && s.model.kind == ScorerModel
    && !Blank(s.priorPackId) && ArtifactValid(s.priorPack) && s.priorPack.kind == PriorPack
    && ReceiptValid(h, s.receipt, s.receiptHash) && s.receipt.modelId == s.scorerId
    && !Blank(s.scorerId) && !Blank(s.version)
  }

  predicate ScorerValid(h: Hashing, s: Scorer) {
    && Identified(h, s)
    && Positive(s.prior) && Positive(s.posterior)
    && 0.0 <= s.floor <= 1.0
    && Summary(s.lineages) && Summary(s.decisionRefs)
    && (s.live ==> s.evidenceClass == Live)
    && (!s.substitution ==> Rank(s.evidenceClass) >= Rank(s.oracle))
  }

  // ----- Admission -----

  datatype Refusal =
    | UnsupportedContract | MessageKindMismatch | FitHasPrevious | RefitMissingPrevious | InvalidPrevious
    | InvalidOperationId | IncompleteScope | InvalidContentAddress | CorpusOverlap | InvalidFloor | LiveOracleMismatch
    | InvalidEvidence | MissingSelection | InvalidSelection | IncompleteCorpora | DecisionRefMismatch | SourceRefMismatch

  function Abs(x: real): real {
    if x < 0.0 then -x else x
  }

  function Max(a: real, b: real): real {
    if a < b then b else a
  }

  /** Relative and absolute tolerance, whichever is the more generous. */
  predicate IsClose(a: real, b: real) {
    Abs(a - b) <= Max(TOLERANCE * Max(Abs(a), Abs(b)), TOLERANCE)
  }

  predicate InUnit(x: real) {
    0.0 <= x <= 1.0
  }

  /** The ranges that both admission and the fitter check. */
  predicate SelectionInRange(s: Selection) {
    && s.behavior > 0.0 && s.behavior <= 1.0 && InUnit(s.target) && s.weight >= 0.0
    && InUnit(s.outcome) && 0.0 <= s.weighted <= s.weight
  }

  predicate SelectionOk(s: Selection) {
    && !Blank(s.decisionRef) && SelectionInRange(s)
    && CloseToRatio(s.weight, s.target, s.behavior)
    && CloseToProduct(s.weighted, s.outcome, s.weight)
  }

  predicate CloseToRatio(x: real, a: real, b: real)
    requires b != 0.0
  {
    IsClose(x, a / b)
  }

  predicate CloseToProduct(x: real, a: real, b: real) {
    IsClose(x, a * b)
  }

  function HeaderFault(q: Request, expected: Kind): Option<Refusal> {
    if q.contract != CONTRACT then Some(UnsupportedContract)
    else if q.kind != expected then Some(MessageKindMismatch)
    else if expected == Fit && q.previous.Some? then Some(FitHasPrevious)
    else if expected == Refit && q.previous.None? then Some(RefitMissingPrevious)
    else if q.previous.Some? && (Blank(q.previous.value.scorerId) || Blank(q.previous.value.version)
                                 || !IsDigest(q.previous.value.modelId) || Blank(q.previous.value.priorPackId))
    then Some(InvalidPrevious)
    else if Blank(q.operationId) || |q.operationId| > 128 then Some(InvalidOperationId)
    else if Blank(q.scope.candidate) || Blank(q.scope.candidateLineage) || q.evidence == [] then Some(IncompleteScope)
    else if !IsDigest(q.scope.packHash) || !IsDigest(q.trainingDigest) || !IsDigest(q.evaluationDigest)
    then Some(InvalidContentAddress)
    else if q.trainingDigest == q.evaluationDigest then Some(CorpusOverlap)
    else if !InUnit(q.floor) then Some(InvalidFloor)
    else if q.live && q.oracle != Live then Some(LiveOracleMismatch)
    else None
  }

  predicate WellFormedEvidence(e: Evidence) {
    && !Blank(e.lineage) && !Blank(e.episodeRef) && IsDigest(e.episodeDigest)
    && Summary(e.sourceRefs)
  }

  function ItemFault(e: Evidence, earlier: set<string>): Option<Refusal> {
    if !WellFormedEvidence(e) || e.lineage in earlier then Some(InvalidEvidence)
    else if e.role == Training then None
    else if e.selection.None? then Some(MissingSelection)
    else if !SelectionOk(e.selection.value) then Some(InvalidSelection)
    else None
  }

  // What the scan collects, entry by entry.

  function Lineages(s: seq<Evidence>): set<string> {
    if s == [] then {} else Lineages(s[..|s| - 1]) + {s[|s| - 1].lineage}
  }

  function Roles(s: seq<Evidence>): set<Role> {
    if s == [] then {} else Roles(s[..|s| - 1]) + {s[|s| - 1].role}
  }

  function Decision(e: Evidence): set<string> {
    if e.role == HeldOut && e.selection.Some? then {e.selection.value.decisionRef} else {}
  }

  function Decisions(s: seq<Evidence>): set<string> {
    if s == [] then {} else Decisions(s[..|s| - 1]) + Decision(s[|s| - 1])
  }

  function Sources(s: seq<Evidence>): set<string> {
    if s == [] then {} else Sources(s[..|s| - 1]) + Elements(s[|s| - 1].sourceRefs)
  }

  lemma {:induction false} CollectedMean(s: seq<Evidence>, x: string, r: Role)
    ensures x in Lineages(s) <==> exists i :: 0 <= i < |s| && s[i].lineage == x
    ensures r in Roles(s) <==> exists i :: 0 <= i < |s| && s[i].role == r
    ensures x in Decisions(s) <==> exists i :: 0 <= i < |s| && x in Decision(s[i])
    ensures x in Sources(s) <==> exists i :: 0 <= i < |s| && x in s[i].sourceRefs
  {
    if s != [] {
      CollectedMean(s[..|s| - 1], x, r);
    }
  }

  /** The first thing wrong with the evidence, scanning it in order. */
  ghost function ScanFault(s: seq<Evidence>): Option<Refusal> {
    if s == [] then None
    else
      var before := ScanFault(s[..|s| - 1]);
      if before.Some? then before else ItemFault(s[|s| - 1], Lineages(s[..|s| - 1]))
  }

  ghost function Verdict(q: Request, expected: Kind): Option<Refusal> {
    var header := HeaderFault(q, expected);
    var scan := ScanFault(q.evidence);
    if header.Some? then header
    else if scan.Some? then scan
    else if Roles(q.evidence) != {Training, HeldOut} then Some(IncompleteCorpora)
    else if q.decisionRefs != Sorted(Decisions(q.evidence)) then Some(DecisionRefMismatch)
    else if q.sourceRefs != Sorted(Sources(q.evidence)) then Some(SourceRefMismatch)
    else None
  }

  method ValidateFitRequest(q: Request, expected: Kind) returns (r: Option<Refusal>)
    ensures r == Verdict(q, expected)
  {
    hide HeaderFault, WellFormedEvidence, SelectionOk, ScanFault, Lineages, Roles, Decisions, Sources, Sorted;
    NothingScanned();
    assert q.evidence[..0] == [];
    r := HeaderFault(q, expected);
    if r.Some? {
      return;
    }
    var lineages: set<string>, roles: set<Role>, decisions: set<string>, sources: set<string> := {}, {}, {}, {};
    var i := 0;
    while i < |q.evidence|
      invariant 0 <= i <= |q.evidence| && r == None
      invariant ScanFault(q.evidence[..i]) == None
      invariant lineages == Lineages(q.evidence[..i]) && roles == Roles(q.evidence[..i])
      invariant decisions == Decisions(q.evidence[..i]) && sources == Sources(q.evidence[..i])
    {
      var e := q.evidence[i];
      ScanGrows(q.evidence, i);
      if !WellFormedEvidence(e) || e.lineage in lineages {
        ScanStops(q.evidence, i + 1);
        return Some(InvalidEvidence);
      }
      lineages, roles, sources := lineages + {e.lineage}, roles + {e.role}, sources + Elements(e.sourceRefs);
      if e.role == HeldOut {
        if e.selection.None? {
          ScanStops(q.evidence, i + 1);
          return Some(MissingSelection);
        }
        if !SelectionOk(e.selection.value) {
          ScanStops(q.evidence, i + 1);
          return Some(InvalidSelection);
        }
        decisions := decisions + {e.selection.value.decisionRef};
      }
      assert ItemFault(e, Lineages(q.evidence[..i])) == None;
      i := i + 1;
    }
    assert q.evidence[..i] == q.evidence;
    if roles != {Training, HeldOut} {
      return Some(IncompleteCorpora);
    }
    if q.decisionRefs != Sorted(decisions) {
      return Some(DecisionRefMismatch);
    }
    if q.sourceRefs != Sorted(sources) {
      return Some(SourceRefMismatch);
    }
  }

  lemma NothingScanned()
    ensures ScanFault([]) == None && Lineages([]) == {} && Roles([]) == {} && Decisions([]) == {} && Sources([]) == {}
  {
  }

  lemma ScanGrows(s: seq<Evidence>, i: nat)
    requires i < |s| && ScanFault(s[..i]) == None
    ensures ScanFault(s[..i + 1]) == ItemFault(s[i], Lineages(s[..i]))
    ensures Lineages(s[..i + 1]) == Lineages(s[..i]) + {s[i].lineage} && Roles(s[..i + 1]) == Roles(s[..i]) + {s[i].role}
    ensures Sources(s[..i + 1]) == Sources(s[..i]) + Elements(s[i].sourceRefs)
    ensures Decisions(s[..i + 1]) == Decisions(s[..i]) + Decision(s[i])
  {
    hide ItemFault, Decision, Elements;
    var longer := s[..i + 1];
    assert longer[..|longer| - 1] == s[..i] && longer[|longer| - 1] == s[i];
  }

  lemma {:induction false} ScanStops(s: seq<Evidence>, n: nat)
    requires n <= |s| && ScanFault(s[..n]).Some?
    ensures ScanFault(s) == ScanFault(s[..n])
  {
    hide ItemFault, Lineages;
    if n == |s| {
      assert s[..n] == s;
    } else {
      assert s[..|s| - 1][..n] == s[..n];
      ScanStops(s[..|s| - 1], n);
    }
  }

  // ----- What admission means -----

  // Admission is stated on the request's own fields, apart from the checks above.

  ghost predicate HeaderAdmitted(q: Request, expected: Kind) {
    && q.contract == "theorem.competence.v1" && q.kind == expected
    && (q.previous.Some? <==> expected == Refit)
    && (q.previous.Some? ==>
          var p := q.previous.value;
          !Blank(p.scorerId) && !Blank(p.version) && IsDigest(p.modelId) && !Blank(p.priorPackId))
    && !Blank(q.operationId) && |q.operationId| <= 128
    && !Blank(q.scope.candidate) && !Blank(q.scope.candidateLineage) && q.evidence != []
    && IsDigest(q.scope.packHash) && IsDigest(q.trainingDigest) && IsDigest(q.evaluationDigest)
    && q.trainingDigest != q.evaluationDigest
    && 0.0 <= q.floor <= 1.0
    && (q.live ==> q.oracle == Live)
  }

  /** Equal up to 1e-12, absolutely or relative to either number. */
  ghost predicate Near(a: real, b: real) {
    var d, t := if a < b then b - a else a - b, 0.000000000001;
    d <= t || d <= t * a || d <= -t * a || d <= t * b || d <= -t * b
  }

  ghost predicate SelectionAdmitted(s: Selection) {
    && !Blank(s.decisionRef)
    && 0.0 < s.behavior <= 1.0 && 0.0 <= s.target <= 1.0 && 0.0 <= s.outcome <= 1.0 && 0.0 <= s.weighted <= s.weight
    && NearRatio(s.weight, s.target, s.behavior) && NearProduct(s.weighted, s.outcome, s.weight)
  }

  ghost predicate NearRatio(x: real, a: real, b: real)
    requires b != 0.0
  {
    Near(x, a / b)
  }

  ghost predicate NearProduct(x: real, a: real, b: real) {
    Near(x, a * b)
  }

  ghost predicate TextsAdmitted(e: Evidence) {
    !Blank(e.lineage) && !Blank(e.episodeRef) && IsDigest(e.episodeDigest) && e.sourceRefs != [] && Canonical(e.sourceRefs)
  }

  ghost predicate ItemAdmitted(e: Evidence) {
    TextsAdmitted(e) && (e.role == HeldOut ==> e.selection.Some? && SelectionAdmitted(e.selection.value))
  }

  /** A held-out item selected by decision x. */
  ghost predicate DecidedBy(e: Evidence, x: string) {
    e.role == HeldOut && e.selection.Some? && e.selection.value.decisionRef == x
  }

  ghost predicate OneLineageEach(s: seq<Evidence>) {
    forall i, j :: 0 <= i < j < |s| ==> s[i].lineage != s[j].lineage
  }

  ghost predicate Admitted(q: Request, expected: Kind) {
    && HeaderAdmitted(q, expected)
    && (forall i :: 0 <= i < |q.evidence| ==> ItemAdmitted(q.evidence[i]))
    && OneLineageEach(q.evidence)
    && (exists i :: 0 <= i < |q.evidence| && q.evidence[i].role == Training)
    && (exists i :: 0 <= i < |q.evidence| && q.evidence[i].role == HeldOut)
    && Canonical(q.decisionRefs)
    && (forall x :: x in q.decisionRefs <==> exists i :: 0 <= i < |q.evidence| && DecidedBy(q.evidence[i], x))
    && Canonical(q.sourceRefs)
    && (forall x :: x in q.sourceRefs <==> exists i :: 0 <= i < |q.evidence| && x in q.evidence[i].sourceRefs)
  }

  lemma {:induction false} ScanMeans(s: seq<Evidence>)
    ensures ScanFault(s).None? <==> (forall i :: 0 <= i < |s| ==> ItemAdmitted(s[i])) && OneLineageEach(s)
  {
    hide WellFormedEvidence, SelectionOk, Lineages, ItemAdmitted;
    if s != [] {
      var n := |s| - 1;
      ScanMeans(s[..n]);
      ItemMeans(s[n]);
      CollectedMean(s[..n], s[n].lineage, Training);
    }
  }

  lemma HeaderMeans(q: Request, expected: Kind)
    ensures HeaderFault(q, expected).None? <==> HeaderAdmitted(q, expected)
  {
    hide Blank, IsDigest;
  }

  lemma CloseMeansNear(a: real, b: real)
    ensures IsClose(a, b) <==> Near(a, b)
  {
  }

  lemma SelectionMeans(s: Selection)
    ensures SelectionOk(s) <==> SelectionAdmitted(s)
  {
    hide Blank, CloseToRatio, CloseToProduct, NearRatio, NearProduct;
    if s.behavior > 0.0 {
      RatioMeans(s.weight, s.target, s.behavior);
    }
    ProductMeans(s.weighted, s.outcome, s.weight);
  }

  lemma RatioMeans(x: real, a: real, b: real)
    requires b != 0.0
    ensures CloseToRatio(x, a, b) <==> NearRatio(x, a, b)
  {
    hide IsClose, Near;
    CloseMeansNear(x, a / b);
  }

  lemma ProductMeans(x: real, a: real, b: real)
    ensures CloseToProduct(x, a, b) <==> NearProduct(x, a, b)
  {
    var p := a * b;
    hide IsClose, Near;
    CloseMeansNear(x, p);
  }

  lemma TextsMean(e: Evidence)
    ensures WellFormedEvidence(e) <==> TextsAdmitted(e)
  {
    hide Sorted, IsDigest, Blank;
    CanonicalTest(e.sourceRefs, Elements(e.sourceRefs));
  }

  lemma ItemMeans(e: Evidence)
    ensures ItemAdmitted(e) <==> WellFormedEvidence(e) && (e.role == HeldOut ==> e.selection.Some? && SelectionOk(e.selection.value))
  {
    hide SelectionOk, SelectionAdmitted, WellFormedEvidence, TextsAdmitted;
    TextsMean(e);
    if e.selection.Some? {
      SelectionMeans(e.selection.value);
    }
  }

  /** The references an admitted request lists are those its evidence collects. */
  lemma ListsEvidence(q: Request, refs: seq<string>, sources: seq<string>)
    ensures Elements(refs) == Decisions(q.evidence) <==>
            forall x :: x in refs <==> exists i :: 0 <= i < |q.evidence| && DecidedBy(q.evidence[i], x)
    ensures Elements(sources) == Sources(q.evidence) <==>
            forall x :: x in sources <==> exists i :: 0 <= i < |q.evidence| && x in q.evidence[i].sourceRefs
  {
    SameElements(refs, Decisions(q.evidence));
    SameElements(sources, Sources(q.evidence));
    CollectedFrom(q.evidence);
  }

  lemma CollectedFrom(s: seq<Evidence>)
    ensures forall x :: x in Decisions(s) <==> exists i :: 0 <= i < |s| && DecidedBy(s[i], x)
    ensures forall x :: x in Sources(s) <==> exists i :: 0 <= i < |s| && x in s[i].sourceRefs
  {
    hide Decisions, Sources, Lineages, Roles;
    forall x
      ensures x in Decisions(s) <==> exists i :: 0 <= i < |s| && DecidedBy(s[i], x)
      ensures x in Sources(s) <==> exists i :: 0 <= i < |s| && x in s[i].sourceRefs
    {
      CollectedMean(s, x, Training);
      forall i | 0 <= i < |s| ensures x in Decision(s[i]) <==> DecidedBy(s[i], x) {
      }
    }
  }

  lemma SameElements(s: seq<string>, all: set<string>)
    ensures Elements(s) == all <==> forall x :: x in s <==> x in all
  {
    if forall x :: x in s <==> x in all {
      assert Elements(s) == all;
    }
    assert forall x :: x in s <==> x in Elements(s);
  }

  lemma RolesMean(s: seq<Evidence>)
    ensures Roles(s) == {Training, HeldOut} <==>
            (exists i :: 0 <= i < |s| && s[i].role == Training) && (exists i :: 0 <= i < |s| && s[i].role == HeldOut)
  {
    hide Roles, Lineages, Decisions, Sources;
    CollectedMean(s, "", Training);
    CollectedMean(s, "", HeldOut);
    forall r | r in Roles(s) ensures r in {Training, HeldOut} {
      match r case Training => case HeldOut =>
    }
  }

  /** No refusal exactly when every field of the request is as admission demands. */
  lemma VerdictMeansAdmitted(q: Request, expected: Kind)
    ensures Verdict(q, expected).None? <==> Admitted(q, expected)
  {
    hide Sorted, Decisions, Sources, Roles, ScanFault, HeaderFault, HeaderAdmitted, ItemAdmitted, OneLineageEach, DecidedBy;
    HeaderMeans(q, expected);
    ScanMeans(q.evidence);
    RolesMean(q.evidence);
    CanonicalTest(q.decisionRefs, Decisions(q.evidence));
    CanonicalTest(q.sourceRefs, Sources(q.evidence));
    ListsEvidence(q, q.decisionRefs, q.sourceRefs);
  }

  /** The condition each refusal reports as violated. */
  ghost predicate Violates(q: Request, expected: Kind, code: Refusal) {
    match code
    case UnsupportedContract => q.contract != "theorem.competence.v1"
    case MessageKindMismatch => q.kind != expected
    case FitHasPrevious => expected == Fit && q.previous.Some?
    case RefitMissingPrevious => expected == Refit && q.previous.None?
    case InvalidPrevious =>
      q.previous.Some? && var p := q.previous.value;
      Blank(p.scorerId) || Blank(p.version) || !IsDigest(p.modelId) || Blank(p.priorPackId)
    case InvalidOperationId => Blank(q.operationId) || |q.operationId| > 128
    case IncompleteScope => Blank(q.scope.candidate) || Blank(q.scope.candidateLineage) || q.evidence == []
    case InvalidContentAddress => !IsDigest(q.scope.packHash) || !IsDigest(q.trainingDigest) || !IsDigest(q.evaluationDigest)
    case CorpusOverlap => q.trainingDigest == q.evaluationDigest
    case InvalidFloor => q.floor < 0.0 || q.floor > 1.0
    case LiveOracleMismatch => q.live && q.oracle != Live
    case InvalidEvidence | MissingSelection | InvalidSelection => ItemViolates(q.evidence, code)
    case IncompleteCorpora =>
      (forall i :: 0 <= i < |q.evidence| ==> q.evidence[i].role != Training)
      || (forall i :: 0 <= i < |q.evidence| ==> q.evidence[i].role != HeldOut)
    case DecisionRefMismatch =>
      !Canonical(q.decisionRefs)
      || exists x :: x in q.decisionRefs <==> forall i :: 0 <= i < |q.evidence| ==> !DecidedBy(q.evidence[i], x)
    case SourceRefMismatch =>
      !Canonical(q.sourceRefs)
      || exists x :: x in q.sourceRefs <==> forall i :: 0 <= i < |q.evidence| ==> x !in q.evidence[i].sourceRefs
  }

  ghost predicate ItemViolates(s: seq<Evidence>, code: Refusal) {
    match code
    case InvalidEvidence =>
      (exists i :: 0 <= i < |s| && !TextsAdmitted(s[i])) || (exists i, j :: 0 <= i < j < |s| && s[i].lineage == s[j].lineage)
    case MissingSelection => exists i :: 0 <= i < |s| && s[i].role == HeldOut && s[i].selection.None?
    case InvalidSelection =>
      exists i :: 0 <= i < |s| && s[i].role == HeldOut && s[i].selection.Some? && !SelectionAdmitted(s[i].selection.value)
    case _ => false
  }

  lemma {:induction false} ScanReports(s: seq<Evidence>)
    requires ScanFault(s).Some?
    ensures ItemViolates(s, ScanFault(s).value)
    ensures ScanFault(s).value in {InvalidEvidence, MissingSelection, InvalidSelection}
  {
    hide WellFormedEvidence, TextsAdmitted, SelectionOk, SelectionAdmitted, Lineages;
    var n := |s| - 1;
    var init, e := s[..n], s[n];
    assert forall i :: 0 <= i < n ==> init[i] == s[i];
    if ScanFault(init).Some? {
      ScanReports(init);
    } else {
      TextsMean(e);
      CollectedMean(init, e.lineage, Training);
      if e.selection.Some? { SelectionMeans(e.selection.value); }
    }
  }

  lemma ListsReport(refs: seq<string>, all: set<string>)
    requires refs != Sorted(all)
    ensures !Canonical(refs) || exists x :: x in refs <==> x !in all
  {
    CanonicalTest(refs, all);
    SameElements(refs, all);
  }

  /** Every refusal names a condition the request really violates. */
  lemma RefusalReports(q: Request, expected: Kind)
    requires Verdict(q, expected).Some?
    ensures Violates(q, expected, Verdict(q, expected).value)
  {
    hide Sorted, ScanFault, TextsAdmitted, SelectionAdmitted, Blank, IsDigest, Decisions, Sources, Roles;
    var code := Verdict(q, expected).value;
    if HeaderFault(q, expected).None? {
      if ScanFault(q.evidence).Some? {
        ScanReports(q.evidence);
      } else {
        RolesMean(q.evidence);
        CollectedFrom(q.evidence);
        if code == DecisionRefMismatch { ListsReport(q.decisionRefs, Decisions(q.evidence)); }
        if code == SourceRefMismatch { ListsReport(q.sourceRefs, Sources(q.evidence)); }
      }
    }
  }
}
