/** Which status a concern reports, read off its evaluated records; and the ranks that order them. */
module ConcernStatus {
  import opened Wrappers
  import opened Adequacy
  import opened EvidenceFold

  // ----- ranks -----

  /** A clean outcome is the least risky, a missing one comes next, then a warning, then a failure. */
  lemma RiskOrder()
    ensures Risk(Passed) < Risk(NotChecked) < Risk(Warned) < Risk(Failed)
  {
  }

  /** The identifier of a capability. */
  function Identifier(c: Capability): string {
    match c
    case ConcernWitness => "DISCOVERY.CONCERN_WITNESS"
    case BoundedChangeClassifier => "DISCOVERY.BOUNDED_CHANGE_CLASSIFIER"
    case CredentialLiteralScan => "SECURITY.CREDENTIAL_LITERAL_SCAN"
    case ConcernDiscoveryScan => "SECURITY.CONCERN_DISCOVERY"
    case NonBehavioralClassifier => "SECURITY.NON_BEHAVIORAL_CHANGE_CLASSIFIER"
    case SemanticFlowScan => "SECURITY.SEMANTIC_FLOW_SCAN"
    case DependencyVulnerabilityScan => "SECURITY.DEPENDENCY_VULNERABILITY_SCAN"
    case CodeRelevanceScan => "RESILIENCE.CODE_RELEVANCE_SCAN"
    case FaultScenarioExecution => "RESILIENCE.FAULT_SCENARIO_EXECUTION"
  }

  /** The first text comes before the second: up to some place they agree, and there it has the lower letter. */
  predicate Before(a: string, b: string) {
    exists i :: 0 <= i < |a| && i < |b| && BeforeAt(a, b, i)
  }

  predicate BeforeAt(a: string, b: string, i: nat)
    requires i < |a| && i < |b|
  {
    a[i] < b[i] && forall j :: 0 <= j < i ==> a[j] == b[j]
  }

  lemma BeforeTrans(a: string, b: string, c: string)
    requires Before(a, b) && Before(b, c)
    ensures Before(a, c)
  {
    var i :| 0 <= i < |a| && i < |b| && BeforeAt(a, b, i);
    var j :| 0 <= j < |b| && j < |c| && BeforeAt(b, c, j);
    var k := if i < j then i else j;
    assert BeforeAt(a, c, k);
  }

  lemma BeforeFrom(a: string, b: string, i: nat)
    requires i < |a| && i < |b| && a[i] < b[i] && forall j :: 0 <= j < i ==> a[j] == b[j]
    ensures Before(a, b)
  {
    assert BeforeAt(a, b, i);
  }

  /** The capability whose identifier comes next. */
  function Following(c: Capability): Option<Capability> {
    match c
    case BoundedChangeClassifier => Some(ConcernWitness)
    case ConcernWitness => Some(CodeRelevanceScan)
    case CodeRelevanceScan => Some(FaultScenarioExecution)
    case FaultScenarioExecution => Some(ConcernDiscoveryScan)
    case ConcernDiscoveryScan => Some(CredentialLiteralScan)
    case CredentialLiteralScan => Some(DependencyVulnerabilityScan)
    case DependencyVulnerabilityScan => Some(NonBehavioralClassifier)
    case NonBehavioralClassifier => Some(SemanticFlowScan)
    case SemanticFlowScan => None
  }

  lemma EarlyNames()
    ensures Before(Identifier(BoundedChangeClassifier), Identifier(ConcernWitness))
    ensures Before(Identifier(ConcernWitness), Identifier(CodeRelevanceScan))
    ensures Before(Identifier(CodeRelevanceScan), Identifier(FaultScenarioExecution))
  {
    BeforeFrom(Identifier(BoundedChangeClassifier), Identifier(ConcernWitness), 10);
    BeforeFrom(Identifier(ConcernWitness), Identifier(CodeRelevanceScan), 0);
    BeforeFrom(Identifier(CodeRelevanceScan), Identifier(FaultScenarioExecution), 11);
  }

  lemma MiddleNames()
    ensures Before(Identifier(FaultScenarioExecution), Identifier(ConcernDiscoveryScan))
    ensures Before(Identifier(ConcernDiscoveryScan), Identifier(CredentialLiteralScan))
    ensures Before(Identifier(CredentialLiteralScan), Identifier(DependencyVulnerabilityScan))
  {
    BeforeFrom(Identifier(FaultScenarioExecution), Identifier(ConcernDiscoveryScan), 0);
    BeforeFrom(Identifier(ConcernDiscoveryScan), Identifier(CredentialLiteralScan), 10);
    BeforeFrom(Identifier(CredentialLiteralScan), Identifier(DependencyVulnerabilityScan), 9);
  }

  lemma LateNames()
    ensures Before(Identifier(DependencyVulnerabilityScan), Identifier(NonBehavioralClassifier))
    ensures Before(Identifier(NonBehavioralClassifier), Identifier(SemanticFlowScan))
  {
    BeforeFrom(Identifier(DependencyVulnerabilityScan), Identifier(NonBehavioralClassifier), 9);
    BeforeFrom(Identifier(NonBehavioralClassifier), Identifier(SemanticFlowScan), 9);
  }

  lemma FollowingRank(c: Capability)
    ensures Following(c).Some? ==>
      Before(Identifier(c), Identifier(Following(c).value)) && NameRank(Following(c).value) == NameRank(c) + 1
    ensures Following(c).None? ==> NameRank(c) == 8
  {
    hide Identifier, Before;
    EarlyNames();
    MiddleNames();
    LateNames();
  }

  /** A lower rank is an earlier identifier. */
  lemma {:induction false} NameRankIsOrder(a: Capability, b: Capability)
    requires NameRank(a) < NameRank(b)
    ensures Before(Identifier(a), Identifier(b))
    decreases 8 - NameRank(a)
  {
    hide Identifier, Before;
    FollowingRank(a);
    var next := Following(a).value;
    if NameRank(next) < NameRank(b) {
      NameRankIsOrder(next, b);
      BeforeTrans(Identifier(a), Identifier(next), Identifier(b));
    } else {
      RankIsName(next, b);
    }
  }

  lemma RankIsName(a: Capability, b: Capability)
    requires NameRank(a) == NameRank(b)
    ensures a == b
  {
  }

  // ----- the status of a concern -----

  ghost predicate Among(es: seq<Evaluated>, p: Evaluated -> bool) {
    exists e :: e in es && p(e)
  }

  /** A flag that fails is reported if it is adequate itself, or no adequate warning stands before it. */
  ghost predicate FailShows(es: seq<Evaluated>) {
    && (exists e :: e in es && IsNegative(e) && e.outcome == Failed)
    && ((exists e :: e in es && IsNegative(e) && e.outcome == Failed && e.adequate)
        || !(exists e :: e in es && IsNegative(e) && e.outcome == Warned && e.adequate))
  }

  /** The evaluation that comes first. */
  ghost predicate Leads(es: seq<Evaluated>, e: Evaluated) {
    e in es && forall x :: x in es ==> ConcernKey(e) <= ConcernKey(x)
  }

  /** What an unanswered concern reports of the evaluation that comes first. */
  function Open(e: Evaluated): Status {
    if e.coverage == Unsupported then StatusUnsupported
    else match e.outcome
         case NotChecked => StatusNotChecked
         case _ => Unknown
  }

  lemma SortedFirst(es: seq<Evaluated>)
    requires es != []
    ensures First(Sort(es, ConcernKey), IsAny).Some? && Leads(es, First(Sort(es, ConcernKey), IsAny).value)
  {
    hide ConcernKey;
    SortKeeps(es, ConcernKey);
    var sorted := Sort(es, ConcernKey);
    assert es[0] in sorted;
    assert IsAny(es[0]);
    FirstIsLeast(sorted, IsAny, ConcernKey);
    forall x | x in es
      ensures ConcernKey(First(sorted, IsAny).value) <= ConcernKey(x)
    {
      assert x in sorted && IsAny(x);
    }
  }

  lemma LeadersAlike(es: seq<Evaluated>, a: Evaluated, b: Evaluated)
    requires Leads(es, a) && Leads(es, b)
    ensures Open(a) == Open(b)
  {
    hide ConcernKey, Open;
    ConcernKeyDetermines(a, b);
    SameOpen(a, b);
  }

  lemma SameOpen(a: Evaluated, b: Evaluated)
    requires a.coverage == b.coverage && a.outcome == b.outcome
    ensures Open(a) == Open(b)
  {
  }

  /**
   * The status of a concern that some capability speaks to: FAIL or WARN of its flags, PASS if there
   * is none and a clean record, otherwise what the first evaluation, or with no record the coverage
   * of the first capability, leaves open.
   */
  lemma ConcernStatusIs(records: seq<ConcernRecord>, concern: Target, classes: seq<LanguageClass>, binding: Binding,
      depth: Depth)
    requires CapabilitiesEstablishing(concern) != []
    ensures var es := ConcernEvaluations(records, concern, classes, binding, RequiredStrength(depth));
      var status := ConcernFinding(records, concern, classes, binding, depth).status;
      var silent := VerdictFor(CapabilitiesEstablishing(concern)[0], concern, classes, NegativeAbsence).coverage;
      && (Among(es, IsNegative) ==> status == if FailShows(es) then Fail else Warn)
      && (!Among(es, IsNegative) && Among(es, IsClean) ==> status == Pass)
      && (!Among(es, IsNegative) && !Among(es, IsClean) && es != [] ==> forall e :: Leads(es, e) ==> status == Open(e))
      && (es == [] ==> status == if silent == Unsupported then StatusUnsupported else StatusNotChecked)
  {
    hide ConcernEvaluations, Sort, VerdictFor, CapabilitiesEstablishing, ConcernKey, Open, FailShows, Leads;
    var es := ConcernEvaluations(records, concern, classes, binding, RequiredStrength(depth));
    var sorted := Sort(es, ConcernKey);
    SortKeeps(es, ConcernKey);
    FirstExists(es, sorted, IsNegative);
    FirstExists(es, sorted, IsClean);
    FlagShown(es);
    if es != [] {
      SortedFirst(es);
      var first := First(sorted, IsAny).value;
      forall e | Leads(es, e)
        ensures Open(e) == Open(first)
      {
        LeadersAlike(es, e, first);
      }
      OpenIs(first);
    } else {
      SortsNothing(es);
    }
  }

  lemma SortsNothing(es: seq<Evaluated>)
    requires es == []
    ensures Sort(es, ConcernKey) == []
  {
  }

  lemma OpenIs(e: Evaluated)
    ensures Open(e) ==
      if e.coverage == Unsupported then StatusUnsupported
      else if e.outcome == NotChecked then StatusNotChecked else Unknown
  {
  }

  lemma FlagShown(es: seq<Evaluated>)
    ensures var first := First(Sort(es, ConcernKey), IsNegative);
      first.Some? ==> (first.value.outcome == Failed <==> FailShows(es))
  {
    hide Sort, First, ConcernKey;
    FailReportedIff(es);
  }

  lemma FirstExists(es: seq<Evaluated>, sorted: seq<Evaluated>, p: Evaluated -> bool)
    requires forall y :: y in sorted <==> y in es
    ensures First(sorted, p).Some? <==> Among(es, p)
  {
    hide First;
  }
}
