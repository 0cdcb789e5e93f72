/** When one evidence record counts, read off its own fields and the rows of the registry. */
module RecordAnswers {
  import opened Wrappers
  import opened Adequacy
  import opened EvidenceFold

  /** The registry lets the capability make the claim, strongly enough and, for silence, in every class. */
  ghost predicate Entitled(c: Capability, t: Target, claim: Claim, classes: seq<LanguageClass>, required: Strength) {
    exists e :: e in Establishments(c) && EntitledBy(e, t, claim, classes, required)
  }

  predicate EntitledBy(e: Establishment, t: Target, claim: Claim, classes: seq<LanguageClass>, required: Strength) {
    && e.target == t && claim in e.claims
    && StrengthRank(required) <= StrengthRank(e.strength)
    && (claim == NegativeAbsence ==> forall k :: k in classes ==> e.negative.At(k) in {Full, NotApplicable})
  }

  lemma OneEntry(c: Capability, t: Target, e: Establishment)
    requires e in Establishments(c) && e.target == t
    ensures EntryFor(c, t) == Found(e)
  {
  }

  lemma WorstFullIff(row: Row, classes: seq<LanguageClass>)
    ensures Worst(row, classes) in {Full, NotApplicable} <==>
            forall k :: k in classes ==> row.At(k) in {Full, NotApplicable}
  {
    var worst := Worst(row, classes);
    if worst in {Full, NotApplicable} {
      forall k | k in classes
        ensures row.At(k) in {Full, NotApplicable}
      {
        assert CoverageRank(worst) <= CoverageRank(row.At(k));
      }
    }
  }

  lemma VerdictOf(c: Capability, t: Target, claim: Claim, classes: seq<LanguageClass>, e: Establishment)
    requires e in Establishments(c) && e.target == t
    ensures var v := VerdictFor(c, t, classes, claim);
      && v.strength == e.strength
      && (claim == NegativeAbsence ==>
            (v.coverage in {Full, NotApplicable} <==>
             forall k :: k in classes ==> e.negative.At(k) in {Full, NotApplicable}))
  {
    hide Establishments, Worst;
    OneEntry(c, t, e);
    WorstFullIff(e.negative, classes);
  }

  lemma SupportedBy(c: Capability, t: Target, claim: Claim) returns (e: Establishment)
    requires SupportsClaim(c, t, claim)
    ensures e in Establishments(c) && e.target == t && claim in e.claims && EntryFor(c, t) == Found(e)
  {
    hide Establishments;
    e :| e in Establishments(c) && e.target == t && claim in e.claims;
    OneEntry(c, t, e);
  }

  lemma EntrySupports(c: Capability, t: Target, claim: Claim, e: Establishment)
    requires e in Establishments(c) && e.target == t
    ensures Establishes(c, t) && (claim in e.claims ==> SupportsClaim(c, t, claim))
  {
    hide Establishments;
    OneEntry(c, t, e);
  }

  lemma EntitledSupports(c: Capability, t: Target, claim: Claim, classes: seq<LanguageClass>, required: Strength)
    returns (e: Establishment)
    requires Entitled(c, t, claim, classes, required)
    ensures e in Establishments(c) && EntitledBy(e, t, claim, classes, required)
    ensures SupportsClaim(c, t, claim) && EntryFor(c, t) == Found(e)
  {
    hide Establishments;
    e :| e in Establishments(c) && EntitledBy(e, t, claim, classes, required);
    OneEntry(c, t, e);
  }

  /** The strength a plan question asks for. */
  function Asked(question: Target): Strength {
    match question
    case ScenarioExecutionQuestion => Measured
    case _ => Structural
  }

  /** The strength a concern asks for at a depth. */
  function AskedAt(depth: Depth): Strength {
    match depth
    case Critical => Behavioral
    case High => Structural
    case Balanced => Lexical
    case Unstated => Lexical
  }

  /** A complete, fully covered, strong enough absence from a capability entitled to it. */
  ghost predicate ProvesAbsence(r: QuestionRecord) {
    && r.outcome == Passed && r.claim == NegativeAbsence && r.completeness == Complete
    && r.coverage in {Full, NotApplicable}
    && StrengthRank(Asked(r.question)) <= StrengthRank(r.strength)
    && Entitled(r.producer, r.question, NegativeAbsence, r.classes, Asked(r.question))
  }

  /** A strong enough finding from a capability entitled to it; it claims no completeness. */
  ghost predicate ProvesFinding(r: QuestionRecord) {
    && r.outcome == Passed && r.claim == PositiveFinding && r.completeness == CompletenessNotApplicable
    && StrengthRank(Asked(r.question)) <= StrengthRank(r.strength)
    && Entitled(r.producer, r.question, PositiveFinding, r.classes, Asked(r.question))
  }

  /** The scope claimed is the discovery's: the same units, all covered, none left over. */
  predicate ClaimsScope(r: QuestionRecord, discovery: Option<Discovery>) {
    && discovery.Some?
    && r.scope == Some(Scope(discovery.value.total, discovery.value.total, 0, Some(discovery.value.identities)))
  }

  lemma QuestionAdequate(r: QuestionRecord, discovery: Option<Discovery>)
    ensures var e, asked := EvaluateQuestion(r, discovery), Asked(r.question);
      && e.outcome == r.outcome && e.claim == r.claim
      && (e.adequate <==>
            && StrengthRank(asked) <= StrengthRank(r.strength)
            && Entitled(r.producer, r.question, r.claim, r.classes, asked)
            && (r.claim == PositiveFinding ==> r.completeness == CompletenessNotApplicable)
            && (r.claim == NegativeAbsence ==> r.completeness == Complete && r.coverage in {Full, NotApplicable})
            && (r.check == DiscoveryQuestion && r.claim == NegativeAbsence && r.outcome == Passed ==>
                  ClaimsScope(r, discovery)))
  {
    hide Establishments, VerdictFor, EntryFor, SupportsClaim, Entitled;
    if SupportsClaim(r.producer, r.question, r.claim) {
      var e := SupportedBy(r.producer, r.question, r.claim);
      VerdictOf(r.producer, r.question, r.claim, r.classes, e);
      EntitledByEntry(r.producer, r.question, r.claim, r.classes, Asked(r.question), e);
    } else if Entitled(r.producer, r.question, r.claim, r.classes, Asked(r.question)) {
      var e := EntitledSupports(r.producer, r.question, r.claim, r.classes, Asked(r.question));
    }
  }

  /** Of one target a capability has one entry, so that entry decides. */
  lemma EntitledByEntry(c: Capability, t: Target, claim: Claim, classes: seq<LanguageClass>, required: Strength,
      e: Establishment)
    requires e in Establishments(c) && EntryFor(c, t) == Found(e)
    ensures Entitled(c, t, claim, classes, required) <==> EntitledBy(e, t, claim, classes, required)
  {
    hide Establishments, EntryFor, EntitledBy;
    if f :| f in Establishments(c) && EntitledBy(f, t, claim, classes, required) {
      EntitledTarget(f, t, claim, classes, required);
      OneEntry(c, t, f);
    }
  }

  lemma EntitledTarget(e: Establishment, t: Target, claim: Claim, classes: seq<LanguageClass>, required: Strength)
    requires EntitledBy(e, t, claim, classes, required)
    ensures e.target == t
  {
  }

  lemma AbsenceAnswerIff(r: QuestionRecord, check: QuestionCheck, discovery: Option<Discovery>, binding: Binding)
    ensures AbsenceAnswer(r, check, discovery, binding) <==>
      && r.check == check && r.binding == binding && ProvesAbsence(r)
      && (check == DiscoveryQuestion ==> ClaimsScope(r, discovery))
  {
    hide Establishments, Entitled, EvaluateQuestion, SupportsClaim, EntryFor;
    QuestionAdequate(r, discovery);
    if Entitled(r.producer, r.question, r.claim, r.classes, Asked(r.question)) {
      var e := EntitledSupports(r.producer, r.question, r.claim, r.classes, Asked(r.question));
    }
  }

  lemma WitnessAnswerIff(r: QuestionRecord, check: QuestionCheck, discovery: Option<Discovery>, binding: Binding)
    ensures WitnessAnswer(r, check, discovery, binding) <==>
      r.check == check && r.binding == binding && ProvesFinding(r)
  {
    hide Establishments, Entitled, EvaluateQuestion, SupportsClaim, EntryFor;
    QuestionAdequate(r, discovery);
    if Entitled(r.producer, r.question, r.claim, r.classes, Asked(r.question)) {
      var e := EntitledSupports(r.producer, r.question, r.claim, r.classes, Asked(r.question));
    }
  }

  /** A question resolves exactly on these fields of the records bound to it. */
  lemma QuestionResolvedByFields(records: seq<QuestionRecord>, check: QuestionCheck, raisedBy: RaisedBy,
      discovery: Option<Discovery>, binding: Binding)
    ensures IsResolved(QuestionFinding(records, check, raisedBy, discovery, binding).status) <==>
      && (forall r :: r in records ==> !FlaggingAnswer(r, check, binding))
      && exists r :: r in records && r.check == check && r.binding == binding &&
           if check != DiscoveryQuestion then ProvesAbsence(r) || ProvesFinding(r)
           else (ProvesAbsence(r) && ClaimsScope(r, discovery)) ||
                (ProvesFinding(r) && (discovery.Some? ==> discovery.value.complete))
  {
    hide QuestionFinding, ProvesAbsence, ProvesFinding, ClaimsScope, AbsenceAnswer, WitnessAnswer, FlaggingAnswer;
    QuestionResolvedIff(records, check, raisedBy, discovery, binding);
    forall r
      ensures AbsenceAnswer(r, check, discovery, binding) <==>
              && r.check == check && r.binding == binding && ProvesAbsence(r)
              && (check == DiscoveryQuestion ==> ClaimsScope(r, discovery))
      ensures WitnessAnswer(r, check, discovery, binding) <==>
              r.check == check && r.binding == binding && ProvesFinding(r)
    {
      AbsenceAnswerIff(r, check, discovery, binding);
      WitnessAnswerIff(r, check, discovery, binding);
    }
  }

  /** Nothing less than a measured execution answers that the required scenarios were run. */
  lemma ExecutionIsMeasured(r: QuestionRecord)
    requires r.question == ScenarioExecutionQuestion && (ProvesAbsence(r) || ProvesFinding(r))
    ensures r.strength == Measured && r.producer == FaultScenarioExecution
  {
    var e := EntitledSupports(r.producer, r.question, r.claim, r.classes, Measured);
  }

  /** A concern record that settles it: passed, complete if silent, strong enough, from an entitled capability. */
  lemma CleanRecordIff(r: ConcernRecord, concern: Target, classes: seq<LanguageClass>, binding: Binding, depth: Depth)
    ensures CleanRecord(r, concern, classes, binding, depth) <==>
      && r.concern == concern && r.binding == binding && r.outcome == Passed
      && StrengthRank(AskedAt(depth)) <= StrengthRank(r.strength)
      && Entitled(r.producer, concern, r.claim, classes, AskedAt(depth))
      && (r.claim == PositiveFinding ==> r.completeness == CompletenessNotApplicable)
      && (r.claim == NegativeAbsence ==> r.completeness == Complete && r.coverage in {Full, NotApplicable})
  {
    hide Establishments, VerdictFor, EntryFor, SupportsClaim, Entitled;
    if SupportsClaim(r.producer, concern, r.claim) {
      var e := SupportedBy(r.producer, concern, r.claim);
      VerdictOf(r.producer, concern, r.claim, classes, e);
      EntitledByEntry(r.producer, concern, r.claim, classes, AskedAt(depth), e);
    } else if Entitled(r.producer, concern, r.claim, classes, AskedAt(depth)) {
      var e := EntitledSupports(r.producer, concern, r.claim, classes, AskedAt(depth));
    }
  }
}
