/** Each kind of obligation, read off the plan, the report and the raised concerns. */
module ObligationFields {
  import opened Wrappers
  import opened Adequacy
  import opened EvidenceFold
  import opened Obligations

  /** The checks a bucket of the report can answer: which bucket, and which fact its checker establishes. */
  const CHECKERS: set<(Check, Dimension, Predicate)> := {
    (Correctness, CorrectnessDim, TrustedCommand), (Architecture, ArchitectureDim, LayerBoundary),
    (Debt, DebtDeltaDim, DeclaredMarkerDelta), (Performance, PerformanceDim, MeasuredMetric)
  }

  /** The plan names no facts for the check, or this one among them. */
  predicate Accepts(plan: Plan, check: Check, fact: Predicate) {
    check in plan.predicates ==> fact in plan.predicates[check]
  }

  /** The bucket that answers a check under this plan. */
  ghost predicate Answers(plan: Plan, check: Check, d: Dimension) {
    exists fact :: (check, d, fact) in CHECKERS && Accepts(plan, check, fact)
  }

  ghost predicate Answered(plan: Plan, check: Check) {
    exists d :: Answers(plan, check, d)
  }

  lemma AnswersIff(plan: Plan, check: Check, d: Dimension)
    requires !IsQuestionCheck(check) && check != IndependentReview
    ensures Answers(plan, check, d) <==>
            ExactCapability(plan, check).Some? && ExactCapability(plan, check).value.dimension == d
  {
    var c := CapabilityForCheck(check);
    if c.Some? {
      assert (check, c.value.dimension, c.value.establishes) in CHECKERS;
    }
    if Answers(plan, check, d) {
      var fact :| (check, d, fact) in CHECKERS && Accepts(plan, check, fact);
      assert c == Some(CheckCapability(d, fact));
    }
  }

  /** The result is about the fact the plan names first; an old result without identity may stand for most. */
  predicate AboutIt(plan: Plan, check: Check, r: QualityResult) {
    check in plan.predicates && plan.predicates[check] != [] ==>
      var fact := plan.predicates[check][0];
      r.identity == Some(fact) || (r.identity == None && fact != CouplingImpact)
  }

  /** A bucket check without a checker the plan accepts: not checked, and material if the candidate raised it. */
  lemma UnansweredObligation(input: Input, check: Check)
    requires !IsQuestionCheck(check) && check != IndependentReview && !Answered(input.plan, check)
    ensures PlanObligation(input, check) == Obligation(FromPlan(check),
      check !in input.plan.origins || input.plan.origins[check] == CandidateEvidence, StatusNotChecked, NotApplicable)
  {
    hide CHECKERS;
    if ExactCapability(input.plan, check).Some? {
      AnswersIff(input.plan, check, ExactCapability(input.plan, check).value.dimension);
    }
  }

  /** One whose bucket is missing from the report: not checked, and material. */
  lemma MissingObligation(input: Input, check: Check, d: Dimension)
    requires !IsQuestionCheck(check) && check != IndependentReview && Answers(input.plan, check, d)
    requires d !in input.report
    ensures PlanObligation(input, check) == Obligation(FromPlan(check), true, StatusNotChecked, NotApplicable)
  {
    hide CHECKERS;
    AnswersIff(input.plan, check, d);
  }

  /** One whose bucket is there: when each status is reported. */
  lemma ReportedObligation(input: Input, check: Check, d: Dimension)
    requires !IsQuestionCheck(check) && check != IndependentReview && Answers(input.plan, check, d)
    requires d in input.report
    ensures var o, r := PlanObligation(input, check), input.report[d];
      var coverage := if r.coverage.Some? then r.coverage.value else NotApplicable;
      var about := AboutIt(input.plan, check, r);
      && o.source == FromPlan(check) && o.material && o.coverage == coverage
      && (o.status == Pass <==> about && r.state == ReportPass && coverage != Unsupported && coverage != Partial)
      && (o.status == Unknown <==>
            about && (r.state == ReportUnknown || (r.state == ReportPass && coverage == Partial)))
      && (o.status == StatusUnsupported <==>
            about && ((r.state == ReportPass && coverage == Unsupported)
                      || (r.state == ReportNotChecked && (coverage == Unsupported || coverage == Partial))))
      && (o.status == Fail <==> about && r.state == ReportFail)
      && (o.status == Warn <==> about && r.state == ReportWarn)
      && (o.status == NotRequired <==> about && r.state == ReportNotRequired)
      && (o.status == StatusNotChecked <==>
            !about || (r.state == ReportNotChecked && coverage != Unsupported && coverage != Partial))
  {
    hide CHECKERS, StrengthShortfall;
    AnswersIff(input.plan, check, d);
    DepthNeverBitesHere(input, check, input.report[d]);
  }

  /** The two question checks are answered by the records for their question, whatever the report says. */
  lemma QuestionCheckObligation(input: Input, check: Check)
    requires IsQuestionCheck(check)
    ensures check == Security || check == Resilience
    ensures var asked := if check == Security then SecurityQuestion else ResilienceQuestion;
      var raisedBy := if check in input.plan.origins then input.plan.origins[check] else CandidateEvidence;
      var q := QuestionFinding(input.questionEvidence, asked, raisedBy, input.discovery, input.binding);
      PlanObligation(input, check) == Obligation(FromQuestion(check), q.material, q.status, q.coverage)
  {
    hide QuestionFinding;
  }

  // ----- deterministic failures -----

  /** A failure that was measured or follows from a rule. */
  predicate FailsByRule(r: QualityResult) {
    r.state == ReportFail && r.provenance != PendingChecker
  }

  /** The obligations of the report: one for each such failure that answers no check of the plan. */
  lemma {:induction false} DimensionObligationsAre(input: Input, claimed: set<Dimension>, dimensions: seq<Dimension>,
      o: Obligation)
    ensures o in DimensionObligations(input, claimed, dimensions) <==>
      exists d :: d in dimensions && d in input.report && d !in claimed && FailsByRule(input.report[d]) &&
        o == Obligation(FromDimension(d), true, Fail,
               if input.report[d].coverage.Some? then input.report[d].coverage.value else NotApplicable)
  {
    if dimensions != [] {
      var d, front := dimensions[|dimensions| - 1], dimensions[..|dimensions| - 1];
      assert dimensions == front + [d];
      DimensionObligationsAre(input, claimed, front, o);
      if d in input.report {
        RuleFailure(input.report[d]);
      }
    }
  }

  lemma RuleFailure(r: QualityResult)
    ensures DeterministicFail(r) <==> FailsByRule(r)
    ensures FailsByRule(r) ==> StatusFromQuality(r) == Fail
    ensures ResultCoverage(r) == if r.coverage.Some? then r.coverage.value else NotApplicable
  {
  }

  /** The buckets the plan takes charge of. */
  lemma ClaimedAre(plan: Plan, required: seq<Check>, d: Dimension)
    ensures d in Claimed(plan, required) <==>
      exists c :: c in required && c != IndependentReview && !IsQuestionCheck(c) && Answers(plan, c, d)
  {
    hide ExactCapability, Answers, IsQuestionCheck;
    forall c | c in required && c != IndependentReview && !IsQuestionCheck(c)
      ensures Answers(plan, c, d) <==> ClaimedBy(plan, c) == Some(d)
    {
      AnswersIff(plan, c, d);
    }
    ClaimedMeans(plan, required, d);
  }

  lemma ClaimedMeans(plan: Plan, required: seq<Check>, d: Dimension)
    ensures forall c :: ClaimedBy(plan, c) == Some(d) ==> c != IndependentReview && !IsQuestionCheck(c)
  {
  }

  // ----- concerns and the unresolved list -----

  predicate EachOnce(classes: seq<LanguageClass>) {
    forall i, j :: 0 <= i < j < |classes| ==> classes[i] != classes[j]
  }

  /** The classes of the files that raised the concern, each once. */
  lemma {:induction false} ClassesAre(concerns: seq<Raised>, concern: Target)
    ensures forall k :: k in ClassesOf(concerns, concern) <==> Raised(concern, k) in concerns
    ensures EachOnce(ClassesOf(concerns, concern))
  {
    if concerns != [] {
      ClassesAre(concerns[..|concerns| - 1], concern);
      var before := ClassesOf(concerns[..|concerns| - 1], concern);
      var next := concerns[|concerns| - 1].languageClass;
      if next !in before {
        OneMoreClass(before, next);
      }
      assert concerns == concerns[..|concerns| - 1] + [concerns[|concerns| - 1]];
    }
  }

  lemma OneMoreClass(classes: seq<LanguageClass>, next: LanguageClass)
    requires next !in classes && EachOnce(classes)
    ensures EachOnce(classes + [next])
  {
  }

  /** What is listed as unresolved: the material obligations that neither pass nor are waived. */
  lemma UnresolvedAre(os: seq<Obligation>, o: Obligation)
    ensures o in UnresolvedObligations(os) <==> o in os && o.material && o.status != Pass && o.status != NotRequired
  {
  }
}
