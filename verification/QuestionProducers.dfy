/** The evidence discovery and the resilience posture produce for the two plan questions. */
module QuestionProducers {
  import opened Wrappers
  import opened Adequacy
  import opened EvidenceFold
  import opened RecordAnswers

  /** What concern discovery found and how far it got; `units` says that there was anything to screen. */
  datatype Screening = Screening(
    found: set<Target>, complete: bool, units: bool, unreadable: bool, touched: seq<LanguageClass>)

  datatype ScreenConclusion = FoundConcerns | AbsenceEstablished | Unfinished

  datatype PostureState = PosturePassed | PostureFailed | PostureNotChecked

  /** `executed` says that the posture rests on scenarios that were run. */
  datatype ResiliencePosture = ResiliencePosture(state: PostureState, executed: bool, coverage: Option<Coverage>)

  function Concluded(s: Screening): ScreenConclusion {
    if s.found != {} then FoundConcerns else if s.complete then AbsenceEstablished else Unfinished
  }

  function ScreenCompleteness(s: Screening): Completeness {
    match Concluded(s)
    case FoundConcerns => CompletenessNotApplicable
    case AbsenceEstablished => Complete
    case Unfinished => Incomplete
  }

  function ScreenCoverage(s: Screening): Coverage {
    match Concluded(s)
    case FoundConcerns => NotApplicable
    case AbsenceEstablished => if s.units then Full else NotApplicable
    case Unfinished => if s.unreadable then Unsupported else Partial
  }

  predicate SecurityFound(s: Screening) {
    exists t :: t in s.found && IsSecurityConcern(t)
  }

  function SecurityEvidence(s: Screening, binding: Binding): QuestionRecord {
    var established := Concluded(s) == AbsenceEstablished;
    QuestionRecord(
      SecurityDiscoveryQuestion, SecurityQuestion,
      if established then NonBehavioralClassifier else ConcernDiscoveryScan,
      if SecurityFound(s) || established then Passed else NotChecked,
      if SecurityFound(s) then PositiveFinding else NegativeAbsence,
      ScreenCompleteness(s), ScreenCoverage(s), Structural, s.touched, None, binding)
  }

  function ResilienceEvidence(p: ResiliencePosture, touched: seq<LanguageClass>, binding: Binding): QuestionRecord {
    QuestionRecord(
      if p.executed then ScenarioExecutionQuestion else ScenarioDiscoveryQuestion, ResilienceQuestion,
      if p.executed then FaultScenarioExecution else CodeRelevanceScan,
      match p.state case PosturePassed => Passed case PostureFailed => Failed case PostureNotChecked => NotChecked,
      if p.state == PostureFailed then PositiveFinding else NegativeAbsence,
      match p.state
      case PosturePassed => Complete
      case PostureFailed => CompletenessNotApplicable
      case PostureNotChecked => Incomplete,
      if p.coverage.Some? then p.coverage.value else NotApplicable,
      if p.executed then Measured else Structural, touched, None, binding)
  }

  method DeriveQuestionEvidence(s: Screening, posture: Option<ResiliencePosture>, binding: Binding)
      returns (evidence: seq<QuestionRecord>)
    ensures evidence == QuestionEvidence(s, posture, binding)
  {
    var foundConcern := exists t :: t in s.found && IsSecurityConcern(t);
    var conclusion, completeness, coverage := DiscoveryConclusion(s);
    var absenceEstablished := conclusion == AbsenceEstablished;
    evidence := [QuestionRecord(
      SecurityDiscoveryQuestion, SecurityQuestion,
      if absenceEstablished then NonBehavioralClassifier else ConcernDiscoveryScan,
      if foundConcern || absenceEstablished then Passed else NotChecked,
      if foundConcern then PositiveFinding else NegativeAbsence,
      completeness, coverage, Structural, s.touched, None, binding)];
    if posture.Some? {
      var p := posture.value;
      var outcome, claim, completeness := NotChecked, NegativeAbsence, Incomplete;
      if p.state == PosturePassed {
        outcome, completeness := Passed, Complete;
      } else if p.state == PostureFailed {
        outcome, claim, completeness := Failed, PositiveFinding, CompletenessNotApplicable;
      }
      evidence := evidence + [QuestionRecord(
        if p.executed then ScenarioExecutionQuestion else ScenarioDiscoveryQuestion, ResilienceQuestion,
        if p.executed then FaultScenarioExecution else CodeRelevanceScan, outcome, claim, completeness,
        if p.coverage.Some? then p.coverage.value else NotApplicable,
        if p.executed then Measured else Structural, s.touched, None, binding)];
    }
  }

  /** The conclusion of discovery, and the completeness and coverage it is reported with. */
  method DiscoveryConclusion(s: Screening)
      returns (conclusion: ScreenConclusion, completeness: Completeness, coverage: Coverage)
    ensures conclusion == Concluded(s) && completeness == ScreenCompleteness(s) && coverage == ScreenCoverage(s)
  {
    if s.found != {} {
      return FoundConcerns, CompletenessNotApplicable, NotApplicable;
    }
    if s.complete {
      coverage := if !s.units then NotApplicable else Full;
      return AbsenceEstablished, Complete, coverage;
    }
    coverage := if s.unreadable then Unsupported else Partial;
    return Unfinished, Incomplete, coverage;
  }

  function QuestionEvidence(s: Screening, posture: Option<ResiliencePosture>, binding: Binding): seq<QuestionRecord> {
    [SecurityEvidence(s, binding)]
    + (if posture.Some? then [ResilienceEvidence(posture.value, s.touched, binding)] else [])
  }

  /** Only languages of these classes were touched. */
  predicate Within(touched: seq<LanguageClass>, classes: set<LanguageClass>) {
    forall c :: c in touched ==> c in classes
  }

  lemma EntriesOf()
    ensures Establishments(NonBehavioralClassifier) == [
        Establishment(SecurityDiscoveryQuestion, Structural, {NegativeAbsence},
          Row(Full, Full, Partial, Unsupported, Full, Unsupported, Unsupported),
          Row(Full, Full, Partial, Unsupported, Full, Unsupported, Unsupported))]
    ensures |Establishments(ConcernDiscoveryScan)| == 1 && Establishments(ConcernDiscoveryScan)[0] ==
        Establishment(SecurityDiscoveryQuestion, Structural, {PositiveFinding},
          Row(Full, Full, Partial, Partial, Full, Full, Unsupported), SILENT)
    ensures |Establishments(CodeRelevanceScan)| == 2 && Establishments(CodeRelevanceScan)[0] ==
        Both(ScenarioDiscoveryQuestion, Structural,
          Row(Full, Partial, Partial, Partial, Unsupported, Unsupported, Unsupported))
    ensures |Establishments(FaultScenarioExecution)| == 2 && Establishments(FaultScenarioExecution)[0] ==
        Both(ScenarioExecutionQuestion, Measured, Row(Full, Full, Full, Full, Unsupported, Unsupported, Unsupported))
    ensures Establishments(CodeRelevanceScan)[1].target == Establishments(FaultScenarioExecution)[1].target
            == CodeFaultScenario
  {
  }

  /** The one record for a check decides its question. */
  lemma OwnRecordDecides(records: seq<QuestionRecord>, own: QuestionRecord, check: QuestionCheck, raisedBy: RaisedBy,
      discovery: Option<Discovery>, binding: Binding)
    requires own in records && own.check == check != DiscoveryQuestion && own.binding == binding
    requires forall r :: r in records && r.check == check ==> r == own
    ensures IsResolved(QuestionFinding(records, check, raisedBy, discovery, binding).status) <==>
            !FlaggingAnswer(own, check, binding) && (ProvesAbsence(own) || ProvesFinding(own))
  {
    hide QuestionFinding, ProvesAbsence, ProvesFinding, ClaimsScope, SupportsClaim, Establishes;
    QuestionResolvedByFields(records, check, raisedBy, discovery, binding);
  }

  /**
   * The plan's security question resolves on discovery's own evidence exactly when a security concern
   * was found, or nothing was, the accounting is complete and only fully modelled languages were
   * touched.
   */
  lemma SecurityResolvedIff(s: Screening, posture: Option<ResiliencePosture>, raisedBy: RaisedBy,
      discovery: Option<Discovery>, binding: Binding)
    ensures
      IsResolved(QuestionFinding(QuestionEvidence(s, posture, binding), SecurityQuestion, raisedBy, discovery,
                                 binding).status)
      <==> SecurityFound(s) || (s.found == {} && s.complete && Within(s.touched, {TsJs, Python, BoundedCompiled}))
  {
    hide QuestionFinding, FlaggingAnswer, ProvesAbsence, ProvesFinding, Within, SecurityFound;
    var own := SecurityEvidence(s, binding);
    OwnRecordDecides(QuestionEvidence(s, posture, binding), own, SecurityQuestion, raisedBy, discovery, binding);
    SecurityRecord(s, binding);
  }

  lemma SecurityRecord(s: Screening, binding: Binding)
    ensures var own := SecurityEvidence(s, binding);
      && !FlaggingAnswer(own, SecurityQuestion, binding)
      && (ProvesFinding(own) <==> SecurityFound(s))
      && (ProvesAbsence(own) <==> s.found == {} && s.complete && Within(s.touched, {TsJs, Python, BoundedCompiled}))
  {
    hide Establishments, Entitled;
    EntriesOf();
    var own := SecurityEvidence(s, binding);
    var e := Establishments(own.producer)[0];
    EntitledByEntry(own.producer, SecurityDiscoveryQuestion, own.claim, s.touched, Structural, e);
  }

  /**
   * Its resilience question resolves exactly when the posture passed with full coverage, over
   * languages the relevance scan models in full or, if scenarios were run, over any scripting one.
   */
  lemma ResilienceResolvedIff(s: Screening, posture: ResiliencePosture, raisedBy: RaisedBy,
      discovery: Option<Discovery>, binding: Binding)
    ensures
      IsResolved(QuestionFinding(QuestionEvidence(s, Some(posture), binding), ResilienceQuestion, raisedBy, discovery,
                                 binding).status)
      <==>
      && posture.state == PosturePassed && posture.coverage in {None, Some(Full), Some(NotApplicable)}
      && Within(s.touched, if posture.executed then {TsJs, Python, Shell, GenericScripting} else {TsJs})
  {
    hide QuestionFinding, FlaggingAnswer, ProvesAbsence, ProvesFinding, Within;
    var own := ResilienceEvidence(posture, s.touched, binding);
    OwnRecordDecides(QuestionEvidence(s, Some(posture), binding), own, ResilienceQuestion, raisedBy, discovery,
        binding);
    ResilienceRecord(posture, s.touched, binding);
  }

  lemma ResilienceRecord(p: ResiliencePosture, touched: seq<LanguageClass>, binding: Binding)
    ensures var own := ResilienceEvidence(p, touched, binding);
      && (FlaggingAnswer(own, ResilienceQuestion, binding) <==> p.state == PostureFailed)
      && !ProvesFinding(own)
      && (ProvesAbsence(own) <==>
            && p.state == PosturePassed && p.coverage in {None, Some(Full), Some(NotApplicable)}
            && Within(touched, if p.executed then {TsJs, Python, Shell, GenericScripting} else {TsJs}))
  {
    hide Establishments, Entitled, SupportsClaim, Establishes;
    EntriesOf();
    var own := ResilienceEvidence(p, touched, binding);
    var e := Establishments(own.producer)[0];
    EntitledByEntry(own.producer, own.question, own.claim, touched, Asked(own.question), e);
    EntrySupports(own.producer, own.question, own.claim, e);
  }

  /** Without a posture there is no evidence for the resilience question, and it stays open. */
  lemma NoPostureStaysOpen(s: Screening, raisedBy: RaisedBy, discovery: Option<Discovery>, binding: Binding)
    ensures
      !IsResolved(QuestionFinding(QuestionEvidence(s, None, binding), ResilienceQuestion, raisedBy, discovery,
                                  binding).status)
  {
    hide QuestionFinding, ProvesAbsence, ProvesFinding;
    QuestionResolvedByFields(QuestionEvidence(s, None, binding), ResilienceQuestion, raisedBy, discovery, binding);
  }
}
