/** The two capabilities that produce typed concern evidence, and when their evidence settles a concern. */
module ConcernProducers {
  import opened Adequacy
  import opened EvidenceFold

  datatype Posture = PosturePass | PostureWarn | PostureFail | PostureNotChecked

  datatype Decision = FlaggedLiteral | ClearedLiteral

  /** What the credential-literal analysis decided about the raw changed atoms. */
  datatype CredentialAnalysis = CredentialAnalysis(posture: Posture, analyzed: map<string, Decision>,
      undecided: set<string>)

  /** What the semantic flow scan saw, and whether every local use was enumerated and classified. */
  datatype FlowAnalysis = FlowAnalysis(exposed: bool, coverage: Coverage, localUseComplete: bool)

  datatype Input = Input(
    raised: set<Target>, credentialAtoms: set<string>, credential: CredentialAnalysis, flow: FlowAnalysis,
    binding: Binding)

  predicate DomainComplete(a: CredentialAnalysis, atoms: set<string>) {
    && a.posture != PostureNotChecked
    && (forall x :: x in atoms ==> x in a.analyzed || x in a.undecided)
    && (forall x :: x in atoms ==> x !in a.undecided)
    && atoms != {}
  }

  predicate AnyFlagged(a: CredentialAnalysis, atoms: set<string>) {
    exists x :: x in atoms && x in a.analyzed && a.analyzed[x] == FlaggedLiteral
  }

  function CredentialOutcome(a: CredentialAnalysis, atoms: set<string>): Outcome {
    if a.posture == PostureFail then Failed
    else if AnyFlagged(a, atoms) then Warned
    else if DomainComplete(a, atoms) then Passed
    else NotChecked
  }

  function CredentialEvidence(a: CredentialAnalysis, atoms: set<string>, binding: Binding): ConcernRecord {
    var outcome := CredentialOutcome(a, atoms);
    ConcernRecord(CredentialLiteral, CredentialLiteralScan, outcome,
      if outcome == Passed || outcome == NotChecked then NegativeAbsence else PositiveFinding,
      if outcome == Passed then Complete else if outcome == NotChecked then Incomplete else CompletenessNotApplicable,
      if outcome == NotChecked then Partial else Full, Structural, binding)
  }

  predicate FlowComplete(f: FlowAnalysis) {
    f.localUseComplete && (f.coverage == Full || f.coverage == NotApplicable)
  }

  function FlowEvidence(concern: Target, f: FlowAnalysis, binding: Binding): ConcernRecord {
    if f.exposed then
      ConcernRecord(concern, SemanticFlowScan, Warned, PositiveFinding, CompletenessNotApplicable, f.coverage,
          Structural, binding)
    else if FlowComplete(f) then
      ConcernRecord(concern, SemanticFlowScan, Passed, NegativeAbsence, Complete, f.coverage, Structural, binding)
    else
      ConcernRecord(concern, SemanticFlowScan, NotChecked, NegativeAbsence, Incomplete,
        if f.coverage == Unsupported then Unsupported else Partial, Structural, binding)
  }

  method DeriveConcernEvidence(input: Input) returns (evidence: seq<ConcernRecord>)
    ensures evidence == ConcernEvidence(input)
  {
    evidence := [];
    if CredentialLiteral in input.raised {
      var record := DeriveCredentialEvidence(input.credential, input.credentialAtoms, input.binding);
      evidence := evidence + [record];
    }
    var flowConcerns := [SensitiveInputFlow, EnvSecretExposure];
    for k := 0 to |flowConcerns|
      invariant evidence ==
        (if CredentialLiteral in input.raised then
            [CredentialEvidence(input.credential, input.credentialAtoms, input.binding)] else [])
        + (if k > 0 && SensitiveInputFlow in input.raised then
            [FlowEvidence(SensitiveInputFlow, input.flow, input.binding)] else [])
        + (if k > 1 && EnvSecretExposure in input.raised then
            [FlowEvidence(EnvSecretExposure, input.flow, input.binding)] else [])
    {
      if flowConcerns[k] !in input.raised { continue; }
      var flow := input.flow;
      var negativeComplete := flow.localUseComplete && flow.coverage in {Full, NotApplicable};
      if flow.exposed {
        evidence := evidence + [ConcernRecord(flowConcerns[k], SemanticFlowScan, Warned, PositiveFinding,
                                              CompletenessNotApplicable, flow.coverage, Structural, input.binding)];
        continue;
      }
      if negativeComplete {
        evidence := evidence + [ConcernRecord(flowConcerns[k], SemanticFlowScan, Passed, NegativeAbsence, Complete,
                                              flow.coverage, Structural, input.binding)];
        continue;
      }
      var coverage := if flow.coverage == Unsupported then Unsupported else Partial;
      evidence := evidence + [ConcernRecord(flowConcerns[k], SemanticFlowScan, NotChecked, NegativeAbsence, Incomplete,
                                            coverage, Structural, input.binding)];
    }
  }

  /** The credential record, from the atoms the analysis left out, left undecided or flagged. */
  method DeriveCredentialEvidence(a: CredentialAnalysis, atoms: set<string>, binding: Binding)
      returns (record: ConcernRecord)
    ensures record == CredentialEvidence(a, atoms, binding)
  {
    var missing := set x | x in atoms && x !in a.analyzed && x !in a.undecided;
    var undecided := set x | x in atoms && x in a.undecided;
    var flagged := set x | x in atoms && x in a.analyzed && a.analyzed[x] == FlaggedLiteral;
    CountsMean(a, atoms, missing, undecided, flagged);
    var domainComplete := a.posture != PostureNotChecked && |missing| == 0 && |undecided| == 0 && |atoms| > 0;
    var outcome :=
      if a.posture == PostureFail then Failed
      else if |flagged| > 0 then Warned
      else if domainComplete then Passed else NotChecked;
    var claim := match outcome
      case Passed => NegativeAbsence
      case NotChecked => NegativeAbsence
      case _ => PositiveFinding;
    var completeness := match outcome
      case Passed => Complete
      case NotChecked => Incomplete
      case _ => CompletenessNotApplicable;
    record := ConcernRecord(CredentialLiteral, CredentialLiteralScan, outcome, claim, completeness,
                            if outcome == NotChecked then Partial else Full, Structural, binding);
  }

  lemma CountsMean(a: CredentialAnalysis, atoms: set<string>, missing: set<string>, undecided: set<string>,
      flagged: set<string>)
    requires missing == set x | x in atoms && x !in a.analyzed && x !in a.undecided
    requires undecided == set x | x in atoms && x in a.undecided
    requires flagged == set x | x in atoms && x in a.analyzed && a.analyzed[x] == FlaggedLiteral
    ensures |flagged| > 0 <==> AnyFlagged(a, atoms)
    ensures DomainComplete(a, atoms) <==>
            a.posture != PostureNotChecked && |missing| == 0 && |undecided| == 0 && |atoms| > 0
  {
    if |flagged| > 0 {
      var x :| x in flagged;
    }
    if AnyFlagged(a, atoms) {
      var x :| x in atoms && x in a.analyzed && a.analyzed[x] == FlaggedLiteral;
      assert x in flagged;
    }
    if |missing| == 0 {
      forall x | x in atoms
        ensures x in a.analyzed || x in a.undecided
      {
        assert x !in missing;
      }
    } else {
      var x :| x in missing;
    }
    if |undecided| == 0 {
      forall x | x in atoms
        ensures x !in a.undecided
      {
        assert x !in undecided;
      }
    } else {
      var x :| x in undecided;
    }
    assert atoms != {} <==> |atoms| > 0;
  }

  function ConcernEvidence(input: Input): seq<ConcernRecord> {
    (if CredentialLiteral in input.raised then
        [CredentialEvidence(input.credential, input.credentialAtoms, input.binding)] else [])
    + (if SensitiveInputFlow in input.raised then [FlowEvidence(SensitiveInputFlow, input.flow, input.binding)] else [])
    + (if EnvSecretExposure in input.raised then [FlowEvidence(EnvSecretExposure, input.flow, input.binding)] else [])
  }

  /** No concern gets more than one record, and only the three addressed ones get any. */
  lemma {:induction false} OneRecordEach(input: Input, r: ConcernRecord)
    requires r in ConcernEvidence(input)
    ensures r.concern in input.raised && r.binding == input.binding
    ensures r.concern == CredentialLiteral ==>
            r == CredentialEvidence(input.credential, input.credentialAtoms, input.binding)
    ensures r.concern != CredentialLiteral ==>
      r.concern in {SensitiveInputFlow, EnvSecretExposure} && r == FlowEvidence(r.concern, input.flow, input.binding)
  {
    hide CredentialOutcome, FlowComplete;
  }

  /** A clean record is always complete negative evidence: no finding of this build passes. */
  lemma PassIsCompleteAbsence(input: Input, r: ConcernRecord)
    requires r in ConcernEvidence(input) && r.outcome == Passed
    ensures r.claim == NegativeAbsence && r.completeness == Complete
  {
    hide CredentialOutcome, FlowComplete;
    OneRecordEach(input, r);
  }

  predicate Silent(row: Row, classes: seq<LanguageClass>) {
    forall c :: c in classes ==> row.At(c) == Full
  }

  const CREDENTIAL_ROW := Row(Full, Full, Full, Full, Partial, Partial, Partial)
  const FLOW_ROW := Row(Full, Full, Full, Partial, Unsupported, Unsupported, Unsupported)

  lemma SilentIff(row: Row, classes: seq<LanguageClass>)
    requires forall c: LanguageClass :: row.At(c) != NotApplicable
    ensures classes == [] || Worst(row, classes) == Full <==> Silent(row, classes)
  {
    if classes != [] {
      assert classes[0] in classes && row.At(classes[0]) != NotApplicable;
    }
  }

  /**
   * A raised credential-literal concern is settled by the producer's own evidence exactly when the
   * posture is neither failing nor unchecked, every one of the atoms that raised it was decided
   * and none flagged, every raising file is of a language the scan reads in full, and the depth
   * asked for is below critical.
   */
  lemma CredentialSettledIff(input: Input, classes: seq<LanguageClass>, depth: Depth)
    requires CredentialLiteral in input.raised
    ensures IsResolved(ConcernFinding(ConcernEvidence(input), CredentialLiteral, classes, input.binding, depth).status)
            <==>
      && input.credential.posture != PostureFail
      && !AnyFlagged(input.credential, input.credentialAtoms)
      && DomainComplete(input.credential, input.credentialAtoms)
      && Silent(CREDENTIAL_ROW, classes)
      && depth != Critical
  {
    hide ConcernFinding, DomainComplete, AnyFlagged, Silent;
    ConcernResolvedIff(ConcernEvidence(input), CredentialLiteral, classes, input.binding, depth);
    var own := CredentialEvidence(input.credential, input.credentialAtoms, input.binding);
    assert own in ConcernEvidence(input);
    forall r | r in ConcernEvidence(input) && r.concern == CredentialLiteral
      ensures r == own
    {
      OneRecordEach(input, r);
    }
    CredentialRecord(own, classes, depth);
    CleanHere(ConcernEvidence(input), own, CredentialLiteral, classes, input.binding, depth);
  }

  /** With one record for a concern, that record decides. */
  lemma CleanHere(records: seq<ConcernRecord>, own: ConcernRecord, concern: Target, classes: seq<LanguageClass>,
      binding: Binding, depth: Depth)
    requires own in records && own.concern == concern
    requires forall r :: r in records && r.concern == concern ==> r == own
    ensures (exists r :: r in records && CleanRecord(r, concern, classes, binding, depth)) <==>
            CleanRecord(own, concern, classes, binding, depth)
    ensures (forall r :: r in records ==> !NegativeRecord(r, concern, binding)) <==>
            !NegativeRecord(own, concern, binding)
  {
    hide EvaluateConcern, SupportsClaim, Establishes, IsClean;
  }

  lemma CredentialRecord(r: ConcernRecord, classes: seq<LanguageClass>, depth: Depth)
    requires r.concern == CredentialLiteral && r.producer == CredentialLiteralScan && r.strength == Structural
    requires r.outcome == Passed ==> r.claim == NegativeAbsence && r.completeness == Complete && r.coverage == Full
    requires r.outcome == Failed || r.outcome == Warned ==> r.claim == PositiveFinding
    ensures CleanRecord(r, CredentialLiteral, classes, r.binding, depth) <==>
            r.outcome == Passed && Silent(CREDENTIAL_ROW, classes) && depth != Critical
    ensures NegativeRecord(r, CredentialLiteral, r.binding) <==> r.outcome == Failed || r.outcome == Warned
  {
    hide Silent, Worst;
    SilentIff(CREDENTIAL_ROW, classes);
    WorstKnown(CREDENTIAL_ROW, classes);
    assert Establishments(CredentialLiteralScan)[0] == Both(CredentialLiteral, Structural, CREDENTIAL_ROW);
  }

  lemma WorstKnown(row: Row, classes: seq<LanguageClass>)
    requires forall c: LanguageClass :: row.At(c) != NotApplicable
    ensures classes != [] ==> Worst(row, classes) != NotApplicable
  {
    if classes != [] {
      assert classes[0] in classes && row.At(classes[0]) != NotApplicable;
    }
  }

  /** Likewise for a raised sensitive-input concern and the flow scan. */
  lemma SensitiveInputSettledIff(input: Input, classes: seq<LanguageClass>, depth: Depth)
    requires SensitiveInputFlow in input.raised
    ensures IsResolved(ConcernFinding(ConcernEvidence(input), SensitiveInputFlow, classes, input.binding, depth).status)
            <==>
      !input.flow.exposed && FlowComplete(input.flow) && Silent(FLOW_ROW, classes) && depth != Critical
  {
    hide ConcernFinding, FlowComplete, Silent;
    ConcernResolvedIff(ConcernEvidence(input), SensitiveInputFlow, classes, input.binding, depth);
    var own := FlowEvidence(SensitiveInputFlow, input.flow, input.binding);
    assert own in ConcernEvidence(input);
    forall r | r in ConcernEvidence(input) && r.concern == SensitiveInputFlow
      ensures r == own
    {
      OneRecordEach(input, r);
    }
    FlowRecordCoverage(SensitiveInputFlow, input.flow, input.binding);
    FlowRecord(own, classes, depth);
    CleanHere(ConcernEvidence(input), own, SensitiveInputFlow, classes, input.binding, depth);
  }

  lemma FlowRecordCoverage(concern: Target, f: FlowAnalysis, binding: Binding)
    ensures var r := FlowEvidence(concern, f, binding); r.outcome == Passed ==> r.coverage in {Full, NotApplicable}
  {
  }

  lemma FlowRecord(r: ConcernRecord, classes: seq<LanguageClass>, depth: Depth)
    requires r.concern == SensitiveInputFlow && r.producer == SemanticFlowScan && r.strength == Structural
    requires r.outcome == Passed ==>
             r.claim == NegativeAbsence && r.completeness == Complete && r.coverage in {Full, NotApplicable}
    requires r.outcome == Failed || r.outcome == Warned ==> r.claim == PositiveFinding
    ensures CleanRecord(r, SensitiveInputFlow, classes, r.binding, depth) <==>
            r.outcome == Passed && Silent(FLOW_ROW, classes) && depth != Critical
    ensures NegativeRecord(r, SensitiveInputFlow, r.binding) <==> r.outcome == Failed || r.outcome == Warned
  {
    hide Silent, Worst;
    SilentIff(FLOW_ROW, classes);
    WorstKnown(FLOW_ROW, classes);
    assert Establishments(SemanticFlowScan)[0] == Both(SensitiveInputFlow, Structural, FLOW_ROW);
  }

  /** Environment-secret exposure is read in part everywhere: raised in any file, it never resolves. */
  lemma EnvSecretNeverSettled(input: Input, classes: seq<LanguageClass>, depth: Depth)
    requires EnvSecretExposure in input.raised && classes != []
    ensures !IsResolved(ConcernFinding(ConcernEvidence(input), EnvSecretExposure, classes, input.binding, depth).status)
  {
    hide ConcernFinding, FlowComplete;
    ConcernResolvedIff(ConcernEvidence(input), EnvSecretExposure, classes, input.binding, depth);
    var own := FlowEvidence(EnvSecretExposure, input.flow, input.binding);
    assert own in ConcernEvidence(input);
    forall r | r in ConcernEvidence(input) && r.concern == EnvSecretExposure
      ensures r == own
    {
      OneRecordEach(input, r);
    }
    EnvRecord(own, classes, depth);
    CleanHere(ConcernEvidence(input), own, EnvSecretExposure, classes, input.binding, depth);
  }

  lemma EnvRecord(r: ConcernRecord, classes: seq<LanguageClass>, depth: Depth)
    requires r.concern == EnvSecretExposure && r.producer == SemanticFlowScan && classes != []
    requires r.outcome == Passed ==> r.claim == NegativeAbsence
    ensures !CleanRecord(r, EnvSecretExposure, classes, r.binding, depth)
  {
    hide Worst;
    var row := Row(Partial, Partial, Partial, Partial, Unsupported, Unsupported, Unsupported);
    assert Establishments(SemanticFlowScan)[1] == Both(EnvSecretExposure, Structural, row);
    assert classes[0] in classes && CoverageRank(Worst(row, classes)) <= CoverageRank(row.At(classes[0]));
  }
}
