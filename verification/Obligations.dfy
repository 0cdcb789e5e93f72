/** The obligations a candidate is held to, and what an empty unresolved list guarantees. */
module Obligations {
  import opened Wrappers
  import opened Adequacy
  import opened EvidenceFold

  datatype Check =
    | Correctness | Integration | Architecture | Debt | Security | Performance | Concurrency | Resilience
    | IndependentReview

  datatype Dimension =
    | CorrectnessDim | ArchitectureDim | MaintainabilityDim | SecurityDim | PerformanceDim | ResilienceDim
    | TestQualityDim | DebtDeltaDim

  const DIMENSIONS: seq<Dimension> := [
    CorrectnessDim, ArchitectureDim, MaintainabilityDim, SecurityDim, PerformanceDim, ResilienceDim,
    TestQualityDim, DebtDeltaDim
  ]

  datatype Predicate =
    | TrustedCommand | CrossModuleBehavior | LayerBoundary | CouplingImpact | DeclaredMarkerDelta
    | MaterialConcernDiscovery | DependencyAdvisory | MeasuredMetric | InterleavingBehavior
    | RequiredScenarioExecution | FreshContextSession

  datatype CheckCapability = CheckCapability(dimension: Dimension, establishes: Predicate)

  /** The checker this build has for a check, with the predicate it is known to establish. */
  function CapabilityForCheck(check: Check): Option<CheckCapability> {
    match check
    case Correctness => Some(CheckCapability(CorrectnessDim, TrustedCommand))
    case Architecture => Some(CheckCapability(ArchitectureDim, LayerBoundary))
    case Debt => Some(CheckCapability(DebtDeltaDim, DeclaredMarkerDelta))
    case Security => Some(CheckCapability(SecurityDim, MaterialConcernDiscovery))
    case Performance => Some(CheckCapability(PerformanceDim, MeasuredMetric))
    case Resilience => Some(CheckCapability(ResilienceDim, RequiredScenarioExecution))
    case Concurrency => None
    case Integration => None
    case IndependentReview => Some(CheckCapability(CorrectnessDim, FreshContextSession))
  }

  datatype ReportState = ReportPass | ReportWarn | ReportFail | ReportUnknown | ReportNotChecked | ReportNotRequired

  datatype Provenance = Deterministic | MeasuredHere | PendingChecker

  datatype QualityResult = QualityResult(state: ReportState, provenance: Provenance, coverage: Option<Coverage>,
      identity: Option<Predicate>)

  datatype Plan = Plan(required: seq<Check>, origins: map<Check, RaisedBy>, predicates: map<Check, seq<Predicate>>)

  datatype Raised = Raised(concern: Target, languageClass: LanguageClass)

  datatype Input = Input(
    plan: Plan, report: map<Dimension, QualityResult>, binding: Binding,
    concerns: seq<Raised>, discovery: Option<Discovery>, depth: Depth,
    concernEvidence: seq<ConcernRecord>, questionEvidence: seq<QuestionRecord>)

  datatype Source =
    | FromDiscovery
    | FromQuestion(check: Check)
    | FromPlan(check: Check)
    | FromDimension(dimension: Dimension)
    | FromConcern(concern: Target)

  datatype Obligation = Obligation(source: Source, material: bool, status: Status, coverage: Coverage)

  predicate Unresolved(o: Obligation) {
    o.material && !IsResolved(o.status)
  }

  function UnresolvedObligations(os: seq<Obligation>): (open: seq<Obligation>)
    ensures forall o :: o in open <==> o in os && Unresolved(o)
  {
    if os == [] then []
    else
      var before := UnresolvedObligations(os[..|os| - 1]);
      assert os == os[..|os| - 1] + [os[|os| - 1]];
      if Unresolved(os[|os| - 1]) then before + [os[|os| - 1]] else before
  }

  function StatusFromQuality(r: QualityResult): Status {
    match r.state
    case ReportPass => Pass
    case ReportFail => Fail
    case ReportWarn => Warn
    case ReportUnknown => Unknown
    case ReportNotRequired => NotRequired
    case ReportNotChecked =>
      if r.coverage == Some(Unsupported) || r.coverage == Some(Partial) then StatusUnsupported else StatusNotChecked
  }

  function StrengthOfResult(r: QualityResult): Strength {
    match r.provenance
    case MeasuredHere => Measured
    case Deterministic => Structural
    case PendingChecker => Lexical
  }

  // ----- one required check -----

  function OriginOf(plan: Plan, check: Check): RaisedBy {
    if check in plan.origins then plan.origins[check] else CandidateEvidence
  }

  /** The checker a plan accepts for a check: it must establish a predicate the plan names, if it names any. */
  function ExactCapability(plan: Plan, check: Check): Option<CheckCapability> {
    var broad := CapabilityForCheck(check);
    if broad.Some? && (check !in plan.predicates || broad.value.establishes in plan.predicates[check]) then broad
        else None
  }

  function RequiredPredicate(plan: Plan, check: Check): Option<Predicate> {
    if check in plan.predicates && plan.predicates[check] != [] then Some(plan.predicates[check][0]) else None
  }

  predicate PredicateMatches(plan: Plan, check: Check, r: QualityResult) {
    var required := RequiredPredicate(plan, check);
    || required.None?
    || r.identity == required
    || (r.identity.None? && required.value != CouplingImpact)
  }

  predicate DepthSensitive(check: Check) {
    check == Security || check == Resilience
  }

  predicate DepthBites(check: Check, concerns: seq<Raised>) {
    exists k :: 0 <= k < |concerns| && (IsSecurityConcern(concerns[k].concern) <==> check == Security)
  }

  /** The branch that demands stronger evidence for a broad bucket. */
  predicate StrengthShortfall(input: Input, check: Check, r: QualityResult) {
    && StatusFromQuality(r) == Pass
    && DepthSensitive(check)
    && OriginOf(input.plan, check) == CandidateEvidence
    && DepthBites(check, input.concerns)
    && !MeetsStrength(StrengthOfResult(r), RequiredStrength(input.depth))
  }

  function ResultCoverage(r: QualityResult): Coverage {
    if r.coverage.Some? then r.coverage.value else NotApplicable
  }

  function CoveredStatus(input: Input, check: Check, r: QualityResult): Status {
    var status := StatusFromQuality(r);
    if !PredicateMatches(input.plan, check, r) then StatusNotChecked
    else if status == Pass && ResultCoverage(r) == Unsupported then StatusUnsupported
    else if (status == Pass && ResultCoverage(r) == Partial) || StrengthShortfall(input, check, r) then Unknown
    else status
  }

  predicate IsQuestionCheck(check: Check) {
    check == Security || check == Resilience
  }

  function QuestionObligation(input: Input, source: Source, check: QuestionCheck, raisedBy: RaisedBy): Obligation {
    var q := QuestionFinding(input.questionEvidence, check, raisedBy, input.discovery, input.binding);
    Obligation(source, q.material, q.status, q.coverage)
  }

  function PlanObligation(input: Input, check: Check): Obligation
    requires check != IndependentReview
  {
    var raisedBy := OriginOf(input.plan, check);
    if IsQuestionCheck(check) then
      QuestionObligation(input, FromQuestion(check),
          if check == Security then SecurityQuestion else ResilienceQuestion, raisedBy)
    else
      var capability := ExactCapability(input.plan, check);
      if capability.None? then
          Obligation(FromPlan(check), raisedBy == CandidateEvidence, StatusNotChecked, NotApplicable)
      else if capability.value.dimension !in input.report then
          Obligation(FromPlan(check), true, StatusNotChecked, NotApplicable)
      else
        var r := input.report[capability.value.dimension];
        Obligation(FromPlan(check), true, CoveredStatus(input, check, r), ResultCoverage(r))
  }

  /** The dimension a required check takes charge of. */
  function ClaimedBy(plan: Plan, check: Check): Option<Dimension> {
    if check == IndependentReview || IsQuestionCheck(check) then None
    else if ExactCapability(plan, check).Some? then Some(ExactCapability(plan, check).value.dimension)
    else None
  }

  predicate DeterministicFail(r: QualityResult) {
    r.state == ReportFail && (r.provenance == Deterministic || r.provenance == MeasuredHere)
  }

  // ----- the four sources -----

  function DiscoveryObligations(input: Input): seq<Obligation> {
    if input.discovery.None? then []
        else [QuestionObligation(input, FromDiscovery, DiscoveryQuestion, CandidateEvidence)]
  }

  function PlanObligations(input: Input, required: seq<Check>): (os: seq<Obligation>)
    ensures forall c :: c in required && c != IndependentReview ==> PlanObligation(input, c) in os
  {
    if required == [] then []
    else
      var last := required[|required| - 1];
      var before := PlanObligations(input, required[..|required| - 1]);
      assert required == required[..|required| - 1] + [last];
      if last == IndependentReview then before else before + [PlanObligation(input, last)]
  }

  function Claimed(plan: Plan, required: seq<Check>): (claimed: set<Dimension>)
    ensures forall d :: d in claimed <==> exists c :: c in required && ClaimedBy(plan, c) == Some(d)
  {
    if required == [] then {}
    else
      var last := required[|required| - 1];
      var before := Claimed(plan, required[..|required| - 1]);
      assert required == required[..|required| - 1] + [last];
      if ClaimedBy(plan, last).Some? then before + {ClaimedBy(plan, last).value} else before
  }

  function DimensionObligations(input: Input, claimed: set<Dimension>, dimensions: seq<Dimension>)
      : (os: seq<Obligation>)
    ensures forall d :: d in dimensions && d in input.report && DeterministicFail(input.report[d]) && d !in claimed ==>
      Obligation(FromDimension(d), true, Fail, ResultCoverage(input.report[d])) in os
  {
    if dimensions == [] then []
    else
      var d := dimensions[|dimensions| - 1];
      var before := DimensionObligations(input, claimed, dimensions[..|dimensions| - 1]);
      assert dimensions == dimensions[..|dimensions| - 1] + [d];
      if d in input.report && DeterministicFail(input.report[d]) && d !in claimed
      then before + [Obligation(FromDimension(d), true, StatusFromQuality(input.report[d]),
          ResultCoverage(input.report[d]))]
      else before
  }

  /** The classes of the files that raised a concern. */
  function ClassesOf(concerns: seq<Raised>, concern: Target): seq<LanguageClass> {
    if concerns == [] then []
    else
      var last := concerns[|concerns| - 1];
      var before := ClassesOf(concerns[..|concerns| - 1], concern);
      if last.concern == concern && last.languageClass !in before then before + [last.languageClass] else before
  }

  function ConcernObligation(input: Input, concern: Target): Obligation {
    var f := ConcernFinding(input.concernEvidence, concern, ClassesOf(input.concerns, concern), input.binding,
        input.depth);
    Obligation(FromConcern(concern), true, f.status, f.coverage)
  }

  /** Raised concern types in order of first appearance. */
  function TypesOf(concerns: seq<Raised>): (types: seq<Target>)
    ensures forall t :: t in types <==> exists k :: 0 <= k < |concerns| && concerns[k].concern == t
  {
    if concerns == [] then []
    else
      var last := concerns[|concerns| - 1].concern;
      var before := TypesOf(concerns[..|concerns| - 1]);
      if last in before then before else before + [last]
  }

  function ConcernObligations(input: Input, types: seq<Target>): (os: seq<Obligation>)
    ensures forall t :: t in types ==> ConcernObligation(input, t) in os
  {
    if types == [] then []
    else
      assert types == types[..|types| - 1] + [types[|types| - 1]];
      ConcernObligations(input, types[..|types| - 1]) + [ConcernObligation(input, types[|types| - 1])]
  }

  function AssuranceObligations(input: Input): seq<Obligation> {
    DiscoveryObligations(input)
    + PlanObligations(input, input.plan.required)
    + DimensionObligations(input, Claimed(input.plan, input.plan.required), DIMENSIONS)
    + ConcernObligations(input, TypesOf(input.concerns))
  }

  /** The loop over the plan: every required check but the review, and the dimensions it claims. */
  method DerivePlanObligations(input: Input) returns (obligations: seq<Obligation>, claimed: set<Dimension>)
    ensures obligations == PlanObligations(input, input.plan.required)
    ensures claimed == Claimed(input.plan, input.plan.required)
  {
    hide PlanObligation, ClaimedBy;
    obligations, claimed := [], {};
    var required := input.plan.required;
    for k := 0 to |required|
      invariant obligations == PlanObligations(input, required[..k])
      invariant claimed == Claimed(input.plan, required[..k])
    {
      var check := required[k];
      assert required[..k + 1][..k] == required[..k];
      if check == IndependentReview {
        NoReviewClaim(input.plan);
        continue;
      }
      obligations := obligations + [PlanObligation(input, check)];
      var dimension := ClaimedBy(input.plan, check);
      if dimension.Some? {
        claimed := claimed + {dimension.value};
      }
    }
    assert required[..|required|] == required;
  }

  lemma NoReviewClaim(plan: Plan)
    ensures ClaimedBy(plan, IndependentReview).None?
  {
  }

  /** The loop over the report: deterministic failures nothing in the plan has taken charge of. */
  method DeriveDimensionObligations(input: Input, claimed: set<Dimension>) returns (obligations: seq<Obligation>)
    ensures obligations == DimensionObligations(input, claimed, DIMENSIONS)
  {
    hide DeterministicFail, StatusFromQuality;
    obligations := [];
    var dimensions := DIMENSIONS;
    hide DIMENSIONS;
    for k := 0 to |dimensions|
      invariant obligations == DimensionObligations(input, claimed, dimensions[..k])
    {
      var dimension := dimensions[k];
      assert dimensions[..k + 1][..k] == dimensions[..k];
      if dimension !in input.report || !DeterministicFail(input.report[dimension]) || dimension in claimed {
        continue;
      }
      var result := input.report[dimension];
      obligations := obligations +
          [Obligation(FromDimension(dimension), true, StatusFromQuality(result), ResultCoverage(result))];
    }
    assert dimensions[..|dimensions|] == dimensions;
  }

  /** One obligation per raised concern type. */
  method DeriveConcernObligations(input: Input) returns (obligations: seq<Obligation>)
    ensures obligations == ConcernObligations(input, TypesOf(input.concerns))
  {
    hide ConcernFinding;
    obligations := [];
    var types := TypesOf(input.concerns);
    for k := 0 to |types|
      invariant obligations == ConcernObligations(input, types[..k])
    {
      assert types[..k + 1][..k] == types[..k];
      obligations := obligations + [ConcernObligation(input, types[k])];
    }
    assert types[..|types|] == types;
  }

  method DeriveAssuranceObligations(input: Input) returns (obligations: seq<Obligation>)
    ensures obligations == AssuranceObligations(input)
  {
    hide QuestionObligation, PlanObligations, DimensionObligations, ConcernObligations, Claimed;
    obligations := [];
    if input.discovery.Some? {
      obligations := obligations + [QuestionObligation(input, FromDiscovery, DiscoveryQuestion, CandidateEvidence)];
    }
    var planned, claimed := DerivePlanObligations(input);
    var failed := DeriveDimensionObligations(input, claimed);
    var concerns := DeriveConcernObligations(input);
    obligations := obligations + planned + failed + concerns;
  }

  // ----- what every derivation guarantees -----

  lemma InAll(input: Input, o: Obligation)
    requires
      || o in DiscoveryObligations(input)
      || o in PlanObligations(input, input.plan.required)
      || o in DimensionObligations(input, Claimed(input.plan, input.plan.required), DIMENSIONS)
      || o in ConcernObligations(input, TypesOf(input.concerns))
    ensures o in AssuranceObligations(input)
  {
    hide DiscoveryObligations, PlanObligations, DimensionObligations, ConcernObligations, Claimed, DIMENSIONS, TypesOf;
  }

  /** No required check is dropped: each but the review raises an obligation of its own. */
  lemma {:induction false} RequiredCheckRaises(input: Input, check: Check)
    requires check in input.plan.required && check != IndependentReview
    ensures PlanObligation(input, check) in AssuranceObligations(input)
    ensures PlanObligation(input, check).source == if IsQuestionCheck(check) then FromQuestion(check)
            else FromPlan(check)
  {
    hide QuestionFinding, DiscoveryObligations, DimensionObligations, ConcernObligations;
    InAll(input, PlanObligation(input, check));
  }

  /** When a plan obligation that is not a question is resolved. */
  predicate EstablishedByReport(input: Input, check: Check) {
    var capability := ExactCapability(input.plan, check);
    && capability.Some?
    && capability.value.dimension in input.report
    && var r := input.report[capability.value.dimension];
       && PredicateMatches(input.plan, check, r)
       && (r.state == ReportNotRequired || (r.state == ReportPass && ResultCoverage(r) in {Full, NotApplicable}))
  }

  /**
   * A check outside security and resilience resolves exactly when the dimension of its exact
   * checker passed with full or no applicable coverage, for the predicate required; a report that
   * calls the dimension not required resolves it too.
   */
  lemma PlanCheckResolvedIff(input: Input, check: Check)
    requires check != IndependentReview && !IsQuestionCheck(check)
    ensures IsResolved(PlanObligation(input, check).status) <==> EstablishedByReport(input, check)
    ensures PlanObligation(input, check).status == Pass ==>
            PlanObligation(input, check).coverage !in {Partial, Unsupported}
  {
    hide ExactCapability, PredicateMatches;
  }

  /** The depth shortfall cannot reach these checks: it is confined to the two question checks. */
  lemma DepthNeverBitesHere(input: Input, check: Check, r: QualityResult)
    requires !IsQuestionCheck(check)
    ensures !StrengthShortfall(input, check, r)
  {
  }

  lemma DimensionListed(d: Dimension)
    ensures d in DIMENSIONS
  {
    match d
    case CorrectnessDim => assert DIMENSIONS[0] == d;
    case ArchitectureDim => assert DIMENSIONS[1] == d;
    case MaintainabilityDim => assert DIMENSIONS[2] == d;
    case SecurityDim => assert DIMENSIONS[3] == d;
    case PerformanceDim => assert DIMENSIONS[4] == d;
    case ResilienceDim => assert DIMENSIONS[5] == d;
    case TestQualityDim => assert DIMENSIONS[6] == d;
    case DebtDeltaDim => assert DIMENSIONS[7] == d;
  }

  /** The obligation speaks for a dimension of the report. */
  ghost predicate Answers(input: Input, o: Obligation, d: Dimension) {
    || o.source == FromDimension(d)
    || exists c :: c in input.plan.required && ClaimedBy(input.plan, c) == Some(d) && o.source == FromPlan(c)
  }

  /** Where the plan has taken charge of the dimension, its own obligation shows the failure. */
  lemma ClaimedFailOpen(input: Input, c: Check, d: Dimension)
    requires ClaimedBy(input.plan, c) == Some(d) && d in input.report && DeterministicFail(input.report[d])
    ensures c != IndependentReview && Unresolved(PlanObligation(input, c)) &&
            PlanObligation(input, c).source == FromPlan(c)
  {
    hide QuestionFinding, PredicateMatches;
  }

  /** A deterministic or measured failure blocks in every dimension, whatever the plan required. */
  lemma DeterministicFailBlocks(input: Input, d: Dimension)
    requires d in input.report && DeterministicFail(input.report[d])
    ensures exists o :: o in AssuranceObligations(input) && Unresolved(o) && Answers(input, o, d)
  {
    hide AssuranceObligations, ClaimedBy, PlanObligation, DIMENSIONS, DeterministicFail;
    DimensionListed(d);
    var claimed := Claimed(input.plan, input.plan.required);
    if d in claimed {
      var c :| c in input.plan.required && ClaimedBy(input.plan, c) == Some(d);
      ClaimedFailOpen(input, c, d);
      RequiredCheckRaises(input, c);
      assert Answers(input, PlanObligation(input, c), d);
    } else {
      InAll(input, Obligation(FromDimension(d), true, Fail, ResultCoverage(input.report[d])));
    }
  }

  lemma {:induction false} ConcernRaises(input: Input, k: nat)
    requires k < |input.concerns|
    ensures ConcernObligation(input, input.concerns[k].concern) in AssuranceObligations(input)
    ensures ConcernObligation(input, input.concerns[k].concern).material
  {
    hide ConcernFinding, DiscoveryObligations, PlanObligations, DimensionObligations;
    InAll(input, ConcernObligation(input, input.concerns[k].concern));
  }

  // ----- what an empty unresolved list means -----

  /** Nothing stands between the candidate and promotion. */
  ghost predicate Promotable(input: Input) {
    UnresolvedObligations(AssuranceObligations(input)) == []
  }

  lemma PromotableMeans(input: Input, o: Obligation)
    requires Promotable(input) && o in AssuranceObligations(input) && o.material
    ensures IsResolved(o.status)
  {
    hide AssuranceObligations;
    assert Unresolved(o) ==> o in UnresolvedObligations(AssuranceObligations(input));
  }

  lemma OpenBlocks(input: Input)
    requires exists o :: o in AssuranceObligations(input) && Unresolved(o)
    ensures !Promotable(input)
  {
    hide AssuranceObligations, Unresolved;
    var o :| o in AssuranceObligations(input) && Unresolved(o);
    assert o in UnresolvedObligations(AssuranceObligations(input));
  }

  /** No failing rule is anywhere in the report of a promotable candidate. */
  lemma PromotableHasNoDeterministicFail(input: Input, d: Dimension)
    requires Promotable(input) && d in input.report
    ensures !DeterministicFail(input.report[d])
  {
    hide AssuranceObligations, UnresolvedObligations, ClaimedBy;
    if DeterministicFail(input.report[d]) {
      DeterministicFailBlocks(input, d);
      OpenBlocks(input);
    }
  }

  /** Each check the candidate's own evidence required was established, exactly and fully covered. */
  lemma PromotableChecksEstablished(input: Input, check: Check)
    requires Promotable(input) && check in input.plan.required && check != IndependentReview
    requires !IsQuestionCheck(check) && OriginOf(input.plan, check) == CandidateEvidence
    ensures EstablishedByReport(input, check)
  {
    hide AssuranceObligations, UnresolvedObligations, ExactCapability, CoveredStatus, EstablishedByReport;
    RequiredCheckRaises(input, check);
    PromotableMeans(input, PlanObligation(input, check));
    PlanCheckResolvedIff(input, check);
  }

  /** Each raised concern was settled by a bound, adequate record, and no bound record flags it. */
  lemma PromotableConcernsSettled(input: Input, k: nat)
    requires Promotable(input) && k < |input.concerns|
    ensures var c := input.concerns[k].concern;
      && (exists r :: r in input.concernEvidence &&
                      CleanRecord(r, c, ClassesOf(input.concerns, c), input.binding, input.depth))
      && (forall r :: r in input.concernEvidence ==> !NegativeRecord(r, c, input.binding))
      && c !in {AuthorizationBehavior, SubprocessExecution, OperationalArtefact}
      && (input.depth == Critical ==> !IsSecurityConcern(c))
  {
    hide AssuranceObligations, UnresolvedObligations, ConcernFinding, CleanRecord, NegativeRecord, ClassesOf;
    var c := input.concerns[k].concern;
    ConcernRaises(input, k);
    PromotableMeans(input, ConcernObligation(input, c));
    var classes := ClassesOf(input.concerns, c);
    ConcernResolvedIff(input.concernEvidence, c, classes, input.binding, input.depth);
    if c in {AuthorizationBehavior, SubprocessExecution, OperationalArtefact} {
      UnestablishableStaysOpen(input.concernEvidence, c, classes, input.binding, input.depth);
    }
    if input.depth == Critical && IsSecurityConcern(c) {
      CriticalSecurityStaysOpen(input.concernEvidence, c, classes, input.binding);
    }
  }

  /** Discovery that ran was complete, or a bound record names exactly its units as covered. */
  lemma PromotableDiscoveryAccounted(input: Input)
    requires Promotable(input) && input.discovery.Some?
    ensures input.discovery.value.complete
      || exists r :: r in input.questionEvidence && NamesWholeScope(r, input.discovery.value, input.binding)
  {
    hide AssuranceObligations, UnresolvedObligations, QuestionFinding, NamesWholeScope;
    var o := QuestionObligation(input, FromDiscovery, DiscoveryQuestion, CandidateEvidence);
    QuestionIsMaterial(input.questionEvidence, DiscoveryQuestion, CandidateEvidence, input.discovery, input.binding);
    InAll(input, o);
    PromotableMeans(input, o);
    if !input.discovery.value.complete {
      IncompleteDiscoveryNeedsNamedScope(input.questionEvidence, CandidateEvidence, input.discovery.value,
          input.binding);
    }
  }

  // ----- what does not matter -----

  /** Two derivations that differ only in order, repetition or foreign records of the evidence. */
  ghost predicate SameForCandidate(a: Input, b: Input) {
    && b == a.(concernEvidence := b.concernEvidence, questionEvidence := b.questionEvidence)
    && (forall r: ConcernRecord :: r.binding == a.binding ==> (r in a.concernEvidence <==> r in b.concernEvidence))
    && (forall r: QuestionRecord :: r.binding == a.binding ==> (r in a.questionEvidence <==> r in b.questionEvidence))
  }

  ghost predicate SameResolution(a: Obligation, b: Obligation) {
    a.source == b.source && a.material == b.material && (IsResolved(a.status) <==> IsResolved(b.status))
  }

  ghost predicate Pairwise(a: seq<Obligation>, b: seq<Obligation>) {
    |a| == |b| && forall i :: 0 <= i < |a| ==> SameResolution(a[i], b[i])
  }

  lemma PairwiseAppend(a: seq<Obligation>, b: seq<Obligation>, a': seq<Obligation>, b': seq<Obligation>)
    requires Pairwise(a, b) && Pairwise(a', b')
    ensures Pairwise(a + a', b + b')
  {
    hide SameResolution;
    forall i | 0 <= i < |a + a'|
      ensures SameResolution((a + a')[i], (b + b')[i])
    {
      if i >= |a| {
        assert SameResolution(a'[i - |a|], b'[i - |a|]);
      }
    }
  }

  lemma SameQuestion(a: Input, b: Input, source: Source, check: QuestionCheck, raisedBy: RaisedBy)
    requires SameForCandidate(a, b)
    ensures SameResolution(QuestionObligation(a, source, check, raisedBy),
            QuestionObligation(b, source, check, raisedBy))
  {
    hide QuestionFinding, Establishes;
    QuestionResolutionIgnoresOthers(a.questionEvidence, b.questionEvidence, check, raisedBy, a.discovery, a.binding);
    QuestionIsMaterial(a.questionEvidence, check, raisedBy, a.discovery, a.binding);
    QuestionIsMaterial(b.questionEvidence, check, raisedBy, b.discovery, b.binding);
  }

  lemma SamePlanObligation(a: Input, b: Input, check: Check)
    requires SameForCandidate(a, b) && check != IndependentReview
    ensures SameResolution(PlanObligation(a, check), PlanObligation(b, check))
  {
    hide QuestionFinding, SameForCandidate, PredicateMatches, DepthBites, ExactCapability;
    var q := if check == Security then SecurityQuestion else ResilienceQuestion;
    SameQuestion(a, b, FromQuestion(check), q, OriginOf(a.plan, check));
    SameRest(a, b);
  }

  lemma SameRest(a: Input, b: Input)
    requires SameForCandidate(a, b)
    ensures a.plan == b.plan && a.report == b.report && a.concerns == b.concerns && a.depth == b.depth
      && a.discovery == b.discovery && a.binding == b.binding
  {
  }

  lemma {:induction false} SamePlan(a: Input, b: Input, required: seq<Check>)
    requires SameForCandidate(a, b)
    ensures Pairwise(PlanObligations(a, required), PlanObligations(b, required))
    decreases required
  {
    hide PlanObligation, SameForCandidate, SameResolution, Pairwise;
    if required == [] {
      PairwiseEmpty();
    } else {
      var last := required[|required| - 1];
      SamePlan(a, b, required[..|required| - 1]);
      if last != IndependentReview {
        SamePlanObligation(a, b, last);
        PairwiseOne(PlanObligation(a, last), PlanObligation(b, last));
        PairwiseAppend(PlanObligations(a, required[..|required| - 1]), PlanObligations(b, required[..|required| - 1]),
            [PlanObligation(a, last)], [PlanObligation(b, last)]);
      }
    }
  }

  lemma PairwiseEmpty()
    ensures Pairwise([], [])
  {
  }

  lemma PairwiseOne(x: Obligation, y: Obligation)
    requires SameResolution(x, y)
    ensures Pairwise([x], [y])
  {
  }

  lemma PairwiseSame(a: seq<Obligation>)
    ensures Pairwise(a, a)
  {
  }

  lemma {:induction false} SameDimensions(a: Input, b: Input, claimed: set<Dimension>, dimensions: seq<Dimension>)
    requires a.report == b.report
    ensures DimensionObligations(a, claimed, dimensions) == DimensionObligations(b, claimed, dimensions)
    decreases dimensions
  {
    if dimensions != [] {
      SameDimensions(a, b, claimed, dimensions[..|dimensions| - 1]);
    }
  }

  lemma SameConcern(a: Input, b: Input, concern: Target)
    requires SameForCandidate(a, b)
    ensures ConcernObligation(a, concern) == ConcernObligation(b, concern)
  {
    hide ConcernFinding, Establishes;
    ConcernFindingIgnoresOthers(a.concernEvidence, b.concernEvidence, concern, ClassesOf(a.concerns, concern),
        a.binding, a.depth);
  }

  lemma {:induction false} SameConcerns(a: Input, b: Input, types: seq<Target>)
    requires SameForCandidate(a, b)
    ensures ConcernObligations(a, types) == ConcernObligations(b, types)
    decreases types
  {
    hide ConcernObligation, SameForCandidate;
    if types != [] {
      SameConcerns(a, b, types[..|types| - 1]);
      SameConcern(a, b, types[|types| - 1]);
    }
  }

  /** Obligation by obligation, the resolution is the same for both. */
  lemma ResolutionIgnoresOthers(a: Input, b: Input)
    requires SameForCandidate(a, b)
    ensures Pairwise(AssuranceObligations(a), AssuranceObligations(b))
  {
    hide SameForCandidate, SameResolution, Pairwise, PlanObligations, DimensionObligations, ConcernObligations, Claimed,
        DIMENSIONS, QuestionObligation, TypesOf;
    SameRest(a, b);
    var required := a.plan.required;
    var claimed := Claimed(a.plan, required);
    SameQuestion(a, b, FromDiscovery, DiscoveryQuestion, CandidateEvidence);
    if a.discovery.Some? {
      PairwiseOne(QuestionObligation(a, FromDiscovery, DiscoveryQuestion, CandidateEvidence),
          QuestionObligation(b, FromDiscovery, DiscoveryQuestion, CandidateEvidence));
    } else {
      PairwiseEmpty();
    }
    SamePlan(a, b, required);
    SameDimensions(a, b, claimed, DIMENSIONS);
    SameConcerns(a, b, TypesOf(a.concerns));
    PairwiseSame(DimensionObligations(a, claimed, DIMENSIONS));
    PairwiseSame(ConcernObligations(a, TypesOf(a.concerns)));
    PairwiseAppend(DiscoveryObligations(a), DiscoveryObligations(b), PlanObligations(a, required),
        PlanObligations(b, required));
    PairwiseAppend(DiscoveryObligations(a) + PlanObligations(a, required),
        DiscoveryObligations(b) + PlanObligations(b, required),
      DimensionObligations(a, claimed, DIMENSIONS), DimensionObligations(b, claimed, DIMENSIONS));
    PairwiseAppend(DiscoveryObligations(a) + PlanObligations(a, required) +
        DimensionObligations(a, claimed, DIMENSIONS),
      DiscoveryObligations(b) + PlanObligations(b, required) + DimensionObligations(b, claimed, DIMENSIONS),
      ConcernObligations(a, TypesOf(a.concerns)), ConcernObligations(b, TypesOf(b.concerns)));
  }

  /** Whether promotion is blocked is blind to order, repetition and foreign evidence. */
  lemma PromotionIgnoresOthers(a: Input, b: Input)
    requires SameForCandidate(a, b)
    ensures Promotable(a) <==> Promotable(b)
  {
    hide AssuranceObligations, SameForCandidate;
    ResolutionIgnoresOthers(a, b);
    NoneOpen(AssuranceObligations(a), AssuranceObligations(b));
    PairwiseSymmetric(AssuranceObligations(a), AssuranceObligations(b));
    NoneOpen(AssuranceObligations(b), AssuranceObligations(a));
  }

  lemma PairwiseSymmetric(a: seq<Obligation>, b: seq<Obligation>)
    requires Pairwise(a, b)
    ensures Pairwise(b, a)
  {
  }

  lemma NoneOpen(a: seq<Obligation>, b: seq<Obligation>)
    requires Pairwise(a, b)
    ensures UnresolvedObligations(a) == [] ==> UnresolvedObligations(b) == []
  {
    if UnresolvedObligations(b) != [] {
      var o := UnresolvedObligations(b)[0];
      assert o in UnresolvedObligations(b);
      var i :| 0 <= i < |b| && b[i] == o;
      assert SameResolution(a[i], b[i]);
      assert a[i] in UnresolvedObligations(a);
    }
  }
}
