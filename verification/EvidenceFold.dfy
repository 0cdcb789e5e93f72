/** How candidate-bound evidence records are weighed for one concern or one plan question. */
module EvidenceFold {
  import opened Wrappers
  import opened Adequacy

  datatype Outcome = Passed | Warned | Failed | NotChecked

  datatype Status = Pass | Fail | Warn | Unknown | StatusNotChecked | StatusUnsupported | NotRequired

  predicate IsResolved(s: Status) {
    s == Pass || s == NotRequired
  }

  /** The candidate and the diff a record was produced for, or a derivation is held to. */
  datatype Binding = Binding(candidate: Option<string>, digest: Option<string>)

  datatype ConcernRecord = ConcernRecord(
    concern: Target, producer: Capability, outcome: Outcome, claim: Claim,
    completeness: Completeness, coverage: Coverage, strength: Strength, binding: Binding)

  datatype QuestionCheck = SecurityQuestion | ResilienceQuestion | DiscoveryQuestion

  datatype Scope = Scope(total: nat, covered: int, residual: nat, identities: Option<seq<string>>)

  datatype QuestionRecord = QuestionRecord(
    question: Target, check: QuestionCheck, producer: Capability, outcome: Outcome, claim: Claim,
    completeness: Completeness, coverage: Coverage, strength: Strength,
    classes: seq<LanguageClass>, scope: Option<Scope>, binding: Binding)

  /** What the fold reads of the discovery result. */
  datatype Discovery = Discovery(total: nat, identities: seq<string>, complete: bool)

  datatype Depth = Unstated | Balanced | High | Critical

  function RequiredStrength(depth: Depth): Strength {
    match depth
    case Critical => Behavioral
    case High => Structural
    case _ => Lexical
  }

  datatype Evaluated = Evaluated(
    producer: Capability, outcome: Outcome, claim: Claim, coverage: Coverage, strength: Strength,
    claimSupported: bool, scopeAdequate: bool, adequate: bool)

  function Weaker(a: Coverage, b: Coverage): Coverage {
    if CoverageRank(a) <= CoverageRank(b) then a else b
  }

  function Capped(s: Strength, maximum: Strength): Strength {
    if StrengthRank(s) <= StrengthRank(maximum) then s else maximum
  }

  predicate CompletenessAdequate(claim: Claim, completeness: Completeness) {
    if claim == PositiveFinding then completeness == CompletenessNotApplicable else completeness == Complete
  }

  predicate CoverageAdequate(claim: Claim, coverage: Coverage) {
    claim == PositiveFinding || coverage == Full || coverage == NotApplicable
  }

  // ----- one record -----

  function EvaluateConcern(r: ConcernRecord, classes: seq<LanguageClass>, required: Strength): Evaluated {
    var supported := SupportsClaim(r.producer, r.concern, r.claim);
    var registry := VerdictFor(r.producer, r.concern, classes, if supported then r.claim else PositiveFinding);
    var coverage := if r.claim == PositiveFinding then r.coverage else Weaker(r.coverage, registry.coverage);
    var strength := Capped(r.strength, registry.strength);
    Evaluated(r.producer, r.outcome, r.claim, coverage, strength, supported, true,
      supported && CompletenessAdequate(r.claim, r.completeness) && CoverageAdequate(r.claim, coverage)
        && MeetsStrength(strength, required))
  }

  /** The claimed scope is this candidate's scope: unit by unit, and fully covered. */
  predicate ScopeNamesDiscovery(scope: Option<Scope>, discovery: Option<Discovery>) {
    && scope.Some? && discovery.Some?
    && scope.value.total == discovery.value.total
    && scope.value.covered == scope.value.total
    && scope.value.residual == 0
    && scope.value.identities == Some(discovery.value.identities)
  }

  function EvaluateQuestion(r: QuestionRecord, discovery: Option<Discovery>): Evaluated {
    var supported := SupportsClaim(r.producer, r.question, r.claim);
    var registry := VerdictFor(r.producer, r.question, r.classes, if supported then r.claim else PositiveFinding);
    var coverage := if r.claim == PositiveFinding then r.coverage else Weaker(r.coverage, registry.coverage);
    var strength := Capped(r.strength, registry.strength);
    var required := if r.question == ScenarioExecutionQuestion then Measured else Structural;
    var scopeAdequate :=
      r.check != DiscoveryQuestion || r.claim == PositiveFinding || r.outcome != Passed
      || ScopeNamesDiscovery(r.scope, discovery);
    Evaluated(r.producer, r.outcome, r.claim, coverage, strength, supported, scopeAdequate,
      supported && CompletenessAdequate(r.claim, r.completeness) && CoverageAdequate(r.claim, coverage)
        && scopeAdequate && MeetsStrength(strength, required))
  }

  // ----- ordering -----

  /** Position of the capability's identifier in collation order. */
  function NameRank(c: Capability): (n: nat)
    ensures n <= 8
  {
    match c
    case BoundedChangeClassifier => 0
    case ConcernWitness => 1
    case CodeRelevanceScan => 2
    case FaultScenarioExecution => 3
    case ConcernDiscoveryScan => 4
    case CredentialLiteralScan => 5
    case DependencyVulnerabilityScan => 6
    case NonBehavioralClassifier => 7
    case SemanticFlowScan => 8
  }

  function Risk(o: Outcome): (n: nat)
    ensures n <= 3
  {
    match o
    case Passed => 0
    case NotChecked => 1
    case Warned => 2
    case Failed => 3
  }

  /** Adequate first, then strength, coverage and name, each worth one decimal place. */
  function QuestionKey(e: Evaluated): nat {
    (if e.adequate then 0 else 1000) + (3 - StrengthRank(e.strength)) * 100 + (3 - CoverageRank(e.coverage)) * 10 +
        NameRank(e.producer)
  }

  /** As for a question, with the riskier outcome preferred right after adequacy. */
  function ConcernKey(e: Evaluated): nat {
    (if e.adequate then 0 else 10000) + (3 - Risk(e.outcome)) * 1000
    + (3 - StrengthRank(e.strength)) * 100 + (3 - CoverageRank(e.coverage)) * 10 + NameRank(e.producer)
  }

  /** The decimal key orders exactly as the four-step comparison it stands for. */
  lemma QuestionKeyIsLexicographic(a: Evaluated, b: Evaluated)
    ensures QuestionKey(a) < QuestionKey(b) <==>
      || (a.adequate && !b.adequate)
      || (a.adequate == b.adequate && StrengthRank(a.strength) > StrengthRank(b.strength))
      || (a.adequate == b.adequate && a.strength == b.strength && CoverageRank(a.coverage) > CoverageRank(b.coverage))
      || (a.adequate == b.adequate && a.strength == b.strength && a.coverage == b.coverage &&
         NameRank(a.producer) < NameRank(b.producer))
  {
  }

  lemma ConcernKeyIsLexicographic(a: Evaluated, b: Evaluated)
    ensures ConcernKey(a) < ConcernKey(b) <==>
      || (a.adequate && !b.adequate)
      || (a.adequate == b.adequate && Risk(a.outcome) > Risk(b.outcome))
      || (a.adequate == b.adequate && a.outcome == b.outcome && QuestionKey(a) < QuestionKey(b))
  {
  }

  /** The concern key determines everything the status reads. */
  lemma ConcernKeyDetermines(a: Evaluated, b: Evaluated)
    requires ConcernKey(a) == ConcernKey(b)
    ensures a.adequate == b.adequate && a.outcome == b.outcome && a.coverage == b.coverage &&
            a.producer == b.producer && a.strength == b.strength
  {
  }

  function Insert(x: Evaluated, sorted: seq<Evaluated>, key: Evaluated -> nat): seq<Evaluated> {
    if sorted == [] then [x]
    else if key(x) < key(sorted[0]) then [x] + sorted
    else [sorted[0]] + Insert(x, sorted[1..], key)
  }

  /** A stable sort: of equal keys, the earlier record stays in front. */
  function Sort(xs: seq<Evaluated>, key: Evaluated -> nat): seq<Evaluated> {
    if xs == [] then [] else Insert(xs[|xs| - 1], Sort(xs[..|xs| - 1], key), key)
  }

  ghost predicate Ascending(xs: seq<Evaluated>, key: Evaluated -> nat) {
    forall i, j :: 0 <= i < j < |xs| ==> key(xs[i]) <= key(xs[j])
  }

  lemma {:induction false} InsertKeeps(x: Evaluated, sorted: seq<Evaluated>, key: Evaluated -> nat)
    requires Ascending(sorted, key)
    ensures Ascending(Insert(x, sorted, key), key)
    ensures forall y :: y in Insert(x, sorted, key) <==> y == x || y in sorted
    decreases sorted
  {
    if sorted != [] && key(x) >= key(sorted[0]) {
      InsertKeeps(x, sorted[1..], key);
      var rest := Insert(x, sorted[1..], key);
      assert forall y :: y in rest ==> key(sorted[0]) <= key(y);
      assert sorted == [sorted[0]] + sorted[1..];
    }
  }

  lemma {:induction false} SortKeeps(xs: seq<Evaluated>, key: Evaluated -> nat)
    ensures Ascending(Sort(xs, key), key)
    ensures forall y :: y in Sort(xs, key) <==> y in xs
    decreases xs
  {
    if xs != [] {
      SortKeeps(xs[..|xs| - 1], key);
      InsertKeeps(xs[|xs| - 1], Sort(xs[..|xs| - 1], key), key);
      assert xs == xs[..|xs| - 1] + [xs[|xs| - 1]];
    }
  }

  function First(xs: seq<Evaluated>, p: Evaluated -> bool): (e: Option<Evaluated>)
    ensures e.Some? ==> e.value in xs && p(e.value)
    ensures e.None? ==> forall x :: x in xs ==> !p(x)
  {
    if xs == [] then None else if p(xs[0]) then Some(xs[0]) else First(xs[1..], p)
  }

  lemma {:induction false} FirstAt(xs: seq<Evaluated>, p: Evaluated -> bool) returns (k: nat)
    requires First(xs, p).Some?
    ensures k < |xs| && xs[k] == First(xs, p).value && forall j :: 0 <= j < k ==> !p(xs[j])
    decreases xs
  {
    if p(xs[0]) {
      k := 0;
    } else {
      var rest := FirstAt(xs[1..], p);
      k := rest + 1;
      assert forall j :: 1 <= j < k ==> xs[j] == xs[1..][j - 1];
    }
  }

  lemma FirstIsLeast(xs: seq<Evaluated>, p: Evaluated -> bool, key: Evaluated -> nat)
    requires Ascending(xs, key) && First(xs, p).Some?
    ensures forall x :: x in xs && p(x) ==> key(First(xs, p).value) <= key(x)
  {
    hide First;
    var k := FirstAt(xs, p);
  }

  /** Which records there are, not their order, decides the key of the first match. */
  lemma FirstKeyIgnoresOrder(a: seq<Evaluated>, b: seq<Evaluated>, p: Evaluated -> bool, key: Evaluated -> nat)
    requires forall x :: x in a <==> x in b
    ensures First(Sort(a, key), p).Some? <==> First(Sort(b, key), p).Some?
    ensures First(Sort(a, key), p).Some? ==> key(First(Sort(a, key), p).value) == key(First(Sort(b, key), p).value)
  {
    SortKeeps(a, key);
    SortKeeps(b, key);
    if First(Sort(a, key), p).Some? && First(Sort(b, key), p).Some? {
      FirstIsLeast(Sort(a, key), p, key);
      FirstIsLeast(Sort(b, key), p, key);
    }
  }

  predicate IsNegative(e: Evaluated) {
    e.claimSupported && (e.outcome == Failed || e.outcome == Warned)
  }

  predicate IsClean(e: Evaluated) {
    e.outcome == Passed && e.adequate
  }

  predicate IsAny(e: Evaluated) {
    true
  }

  // ----- concerns -----

  predicate Matches(r: ConcernRecord, concern: Target, binding: Binding) {
    r.concern == concern && Establishes(r.producer, concern) && r.binding == binding
  }

  /** The bound, establishing records of a concern, evaluated, in the order given. */
  function ConcernEvaluations(records: seq<ConcernRecord>, concern: Target, classes: seq<LanguageClass>,
      binding: Binding, required: Strength): (es: seq<Evaluated>)
    ensures forall e :: e in es <==>
            exists r :: r in records && Matches(r, concern, binding) && e == EvaluateConcern(r, classes, required)
  {
    if records == [] then []
    else
      var last := records[|records| - 1];
      var before := ConcernEvaluations(records[..|records| - 1], concern, classes, binding, required);
      assert records == records[..|records| - 1] + [last];
      if Matches(last, concern, binding) then before + [EvaluateConcern(last, classes, required)] else before
  }

  datatype Finding = Finding(status: Status, coverage: Coverage, producer: Option<Capability>)

  /** The status of a concern from the first flag, the first clean result and the first record at all. */
  function Conclude(negative: Option<Evaluated>, clean: Option<Evaluated>, first: Option<Evaluated>,
      silent: Coverage): Finding {
    var selected := OrElse(negative, OrElse(clean, first));
    var coverage := if selected.Some? then selected.value.coverage else silent;
    var status :=
      if negative.Some? then (if negative.value.outcome == Failed then Fail else Warn)
      else if clean.Some? then Pass
      else if coverage == Unsupported then StatusUnsupported
      else if selected.None? || selected.value.outcome == NotChecked then StatusNotChecked
      else Unknown;
    Finding(status, coverage, if selected.Some? then Some(selected.value.producer) else None)
  }

  function OrElse(a: Option<Evaluated>, b: Option<Evaluated>): Option<Evaluated> {
    if a.Some? then a else b
  }

  function ConcernFinding(records: seq<ConcernRecord>, concern: Target, classes: seq<LanguageClass>, binding: Binding,
      depth: Depth): Finding {
    var producers := CapabilitiesEstablishing(concern);
    if producers == [] then Finding(StatusNotChecked, NotApplicable, None)
    else
      var sorted := Sort(ConcernEvaluations(records, concern, classes, binding, RequiredStrength(depth)), ConcernKey);
      Conclude(First(sorted, IsNegative), First(sorted, IsClean), First(sorted, IsAny),
        VerdictFor(producers[0], concern, classes, NegativeAbsence).coverage)
  }

  /** A record that, bound to this candidate, would settle the concern cleanly. */
  predicate CleanRecord(r: ConcernRecord, concern: Target, classes: seq<LanguageClass>, binding: Binding,
      depth: Depth) {
    Matches(r, concern, binding) && IsClean(EvaluateConcern(r, classes, RequiredStrength(depth)))
  }

  /** A record that, bound to this candidate, flags the concern. */
  predicate NegativeRecord(r: ConcernRecord, concern: Target, binding: Binding) {
    Matches(r, concern, binding) && SupportsClaim(r.producer, concern, r.claim) &&
        (r.outcome == Failed || r.outcome == Warned)
  }

  /** A concern resolves exactly when some bound record settles it and none flags it. */
  lemma ConcernResolvedIff(records: seq<ConcernRecord>, concern: Target, classes: seq<LanguageClass>, binding: Binding,
      depth: Depth)
    ensures IsResolved(ConcernFinding(records, concern, classes, binding, depth).status) <==>
      && (exists r :: r in records && CleanRecord(r, concern, classes, binding, depth))
      && (forall r :: r in records ==> !NegativeRecord(r, concern, binding))
  {
    hide EvaluateConcern, ConcernKey, Sort, SupportsClaim, VerdictFor, Establishes, CapabilitiesEstablishing;
    var required := RequiredStrength(depth);
    var es := ConcernEvaluations(records, concern, classes, binding, required);
    SortKeeps(es, ConcernKey);
    ConcernMembers(records, concern, classes, binding, depth);
    forall r | r in records && Matches(r, concern, binding)
      ensures CapabilitiesEstablishing(concern) != []
    {
      AllRegistered(r.producer, concern);
    }
  }

  lemma ConcernMembers(records: seq<ConcernRecord>, concern: Target, classes: seq<LanguageClass>, binding: Binding,
      depth: Depth)
    ensures var es := ConcernEvaluations(records, concern, classes, binding, RequiredStrength(depth));
      && ((exists e :: e in es && IsClean(e)) <==>
         exists r :: r in records && CleanRecord(r, concern, classes, binding, depth))
      && ((exists e :: e in es && IsNegative(e)) <==> exists r :: r in records && NegativeRecord(r, concern, binding))
  {
    hide VerdictFor, SupportsClaim, EntryFor;
    var required := RequiredStrength(depth);
    var es := ConcernEvaluations(records, concern, classes, binding, required);
    forall r | r in records && Matches(r, concern, binding)
      ensures EvaluateConcern(r, classes, required) in es
      ensures IsNegative(EvaluateConcern(r, classes, required)) <==> NegativeRecord(r, concern, binding)
    {
    }
  }

  /** The records that count here: bound to this candidate, of an establishing producer. */
  ghost predicate SameMatching(a: seq<ConcernRecord>, b: seq<ConcernRecord>, concern: Target, binding: Binding) {
    forall r :: Matches(r, concern, binding) ==> (r in a <==> r in b)
  }

  /**
   * Order, repetition, and records of other candidates, digests, concerns or producers are all
   * without effect: on the status, on the coverage and on the producer named.
   */
  lemma ConcernFindingIgnoresOthers(a: seq<ConcernRecord>, b: seq<ConcernRecord>, concern: Target,
      classes: seq<LanguageClass>, binding: Binding, depth: Depth)
    requires SameMatching(a, b, concern, binding)
    ensures ConcernFinding(a, concern, classes, binding, depth) == ConcernFinding(b, concern, classes, binding, depth)
  {
    hide Matches, EvaluateConcern, VerdictFor, Sort, ConcernKey, IsNegative, IsClean, RequiredStrength, Conclude, First;
    var required := RequiredStrength(depth);
    var ea := ConcernEvaluations(a, concern, classes, binding, required);
    var eb := ConcernEvaluations(b, concern, classes, binding, required);
    SameEvaluations(a, b, concern, classes, binding, required);
    SameFirst(ea, eb, IsNegative);
    SameFirst(ea, eb, IsClean);
    SameFirst(ea, eb, IsAny);
    var sa, sb := Sort(ea, ConcernKey), Sort(eb, ConcernKey);
    forall silent
      ensures Conclude(First(sa, IsNegative), First(sa, IsClean), First(sa, IsAny), silent)
        == Conclude(First(sb, IsNegative), First(sb, IsClean), First(sb, IsAny), silent)
    {
      ConcludeAlike(First(sa, IsNegative), First(sa, IsClean), First(sa, IsAny), First(sb, IsNegative),
          First(sb, IsClean), First(sb, IsAny), silent);
    }
  }

  /** Equal in everything a finding reads. */
  ghost predicate Alike(a: Option<Evaluated>, b: Option<Evaluated>) {
    && (a.Some? <==> b.Some?)
    && (a.Some? ==>
          && a.value.outcome == b.value.outcome
          && a.value.coverage == b.value.coverage
          && a.value.producer == b.value.producer)
  }

  lemma ConcludeAlike(n: Option<Evaluated>, c: Option<Evaluated>, f: Option<Evaluated>, n': Option<Evaluated>,
      c': Option<Evaluated>, f': Option<Evaluated>, silent: Coverage)
    requires Alike(n, n') && Alike(c, c') && Alike(f, f')
    ensures Conclude(n, c, f, silent) == Conclude(n', c', f', silent)
  {
  }

  lemma SameFirst(a: seq<Evaluated>, b: seq<Evaluated>, p: Evaluated -> bool)
    requires forall x :: x in a <==> x in b
    ensures Alike(First(Sort(a, ConcernKey), p), First(Sort(b, ConcernKey), p))
  {
    hide ConcernKey, Sort, First;
    FirstKeyIgnoresOrder(a, b, p, ConcernKey);
    var x, y := First(Sort(a, ConcernKey), p), First(Sort(b, ConcernKey), p);
    if x.Some? {
      ConcernKeyDetermines(x.value, y.value);
    }
  }

  lemma SameEvaluations(a: seq<ConcernRecord>, b: seq<ConcernRecord>, concern: Target, classes: seq<LanguageClass>,
      binding: Binding, required: Strength)
    requires SameMatching(a, b, concern, binding)
    ensures forall e :: e in ConcernEvaluations(a, concern, classes, binding, required) <==>
            e in ConcernEvaluations(b, concern, classes, binding, required)
  {
    hide Matches, EvaluateConcern;
  }

  /** At critical depth nothing this build can produce settles a security concern. */
  lemma CriticalSecurityStaysOpen(records: seq<ConcernRecord>, concern: Target, classes: seq<LanguageClass>,
      binding: Binding)
    requires IsSecurityConcern(concern)
    ensures !IsResolved(ConcernFinding(records, concern, classes, binding, Critical).status)
  {
    hide ConcernFinding, VerdictFor, SupportsClaim, Matches, CompletenessAdequate, CoverageAdequate;
    ConcernResolvedIff(records, concern, classes, binding, Critical);
    forall r | r in records && r.concern == concern
      ensures !CleanRecord(r, concern, classes, binding, Critical)
    {
      SecurityIsStructural(r.producer, concern, classes, PositiveFinding);
      SecurityIsStructural(r.producer, concern, classes, r.claim);
    }
    MatchingConcern(records, concern, classes, binding, Critical);
  }

  lemma MatchingConcern(records: seq<ConcernRecord>, concern: Target, classes: seq<LanguageClass>, binding: Binding,
      depth: Depth)
    ensures forall r :: r in records && CleanRecord(r, concern, classes, binding, depth) ==> r.concern == concern
  {
    hide EvaluateConcern;
  }

  /** Authorization, subprocess input and deployment artefacts are never settled, at any depth. */
  lemma UnestablishableStaysOpen(records: seq<ConcernRecord>, concern: Target, classes: seq<LanguageClass>,
      binding: Binding, depth: Depth)
    requires concern in {AuthorizationBehavior, SubprocessExecution, OperationalArtefact}
    ensures ConcernFinding(records, concern, classes, binding, depth) == Finding(StatusNotChecked, NotApplicable, None)
  {
    NothingEstablishes(concern);
  }

  /** A bound finding that the producer may make keeps its concern open, whatever else is there. */
  lemma FlaggedConcernStaysOpen(records: seq<ConcernRecord>, r: ConcernRecord, concern: Target,
      classes: seq<LanguageClass>, binding: Binding, depth: Depth)
    requires r in records && NegativeRecord(r, concern, binding)
    ensures ConcernFinding(records, concern, classes, binding, depth).status in {Fail, Warn}
  {
    hide VerdictFor, SupportsClaim, Sort, ConcernKey, Establishes, CapabilitiesEstablishing, EvaluateConcern;
    var required := RequiredStrength(depth);
    ConcernMembers(records, concern, classes, binding, depth);
    SortKeeps(ConcernEvaluations(records, concern, classes, binding, required), ConcernKey);
    AllRegistered(r.producer, concern);
  }

  /**
   * Adequacy outranks risk when the reported flag is chosen: a failure is reported as such exactly
   * when it is adequate itself or no adequate warning stands before it.
   */
  lemma FailReportedIff(es: seq<Evaluated>)
    ensures var first := First(Sort(es, ConcernKey), IsNegative);
      first.Some? && first.value.outcome == Failed <==>
        && (exists e :: e in es && IsNegative(e) && e.outcome == Failed)
        && ((exists e :: e in es && IsNegative(e) && e.outcome == Failed && e.adequate)
            || !(exists e :: e in es && IsNegative(e) && e.outcome == Warned && e.adequate))
  {
    hide Sort, First;
    var sorted := Sort(es, ConcernKey);
    var first := First(sorted, IsNegative);
    SortKeeps(es, ConcernKey);
    if first.Some? {
      FirstIsLeast(sorted, IsNegative, ConcernKey);
      forall e | e in es && IsNegative(e)
        ensures ConcernKey(first.value) <= ConcernKey(e)
      {
        assert e in sorted;
      }
    }
  }

  // ----- plan questions -----

  datatype RaisedBy = CandidateEvidence | QualityPreference

  predicate Addresses(r: QuestionRecord, check: QuestionCheck, binding: Binding) {
    r.check == check && r.binding == binding && Establishes(r.producer, r.question)
  }

  function QuestionEvaluations(records: seq<QuestionRecord>, check: QuestionCheck, discovery: Option<Discovery>,
      binding: Binding): (es: seq<Evaluated>)
    ensures forall e :: e in es <==>
            exists r :: r in records && Addresses(r, check, binding) && e == EvaluateQuestion(r, discovery)
  {
    if records == [] then []
    else
      var last := records[|records| - 1];
      var before := QuestionEvaluations(records[..|records| - 1], check, discovery, binding);
      assert records == records[..|records| - 1] + [last];
      if Addresses(last, check, binding) then before + [EvaluateQuestion(last, discovery)] else before
  }

  predicate IsCompleteAbsence(e: Evaluated) {
    e.outcome == Passed && e.claim == NegativeAbsence && e.adequate
  }

  predicate IsPositiveWitness(e: Evaluated) {
    e.outcome == Passed && e.claim == PositiveFinding && e.adequate
  }

  predicate IsUncheckedAbsence(e: Evaluated) {
    e.claim == NegativeAbsence && e.outcome == NotChecked
  }

  predicate IsInadequateAbsence(e: Evaluated) {
    e.claim == NegativeAbsence && !e.adequate
  }

  predicate IsPositive(e: Evaluated) {
    e.claim == PositiveFinding
  }

  datatype QuestionResult = QuestionResult(status: Status, coverage: Coverage, producer: Option<Capability>,
      material: bool)

  predicate RemainderIncomplete(check: QuestionCheck, discovery: Option<Discovery>) {
    check == DiscoveryQuestion && discovery.Some? && !discovery.value.complete
  }

  /** Both plan questions have an entry in the registry of checks; discovery is no check there. */
  predicate HasCheckCapability(check: QuestionCheck) {
    check == SecurityQuestion || check == ResilienceQuestion
  }

  function QuestionFinding(records: seq<QuestionRecord>, check: QuestionCheck, raisedBy: RaisedBy,
      discovery: Option<Discovery>, binding: Binding): QuestionResult {
    var evaluated := Sort(QuestionEvaluations(records, check, discovery, binding), QuestionKey);
    var negative := First(evaluated, IsNegative);
    var completeAbsence := First(evaluated, IsCompleteAbsence);
    var positiveWitness := First(evaluated, IsPositiveWitness);
    var incomplete := RemainderIncomplete(check, discovery);
    var selected := OrElse(negative, OrElse(completeAbsence, if incomplete then None else positiveWitness));
    var remainder := OrElse(First(evaluated, IsUncheckedAbsence), First(evaluated, IsInadequateAbsence));
    var best := OrElse(selected, OrElse(if incomplete then remainder else None, First(evaluated, IsAny)));
    var status :=
      if negative.Some? then (if negative.value.outcome == Failed then Fail else Warn)
      else if selected.Some? && selected.value.outcome == Passed then Pass
      else if best.Some? && best.value.coverage == Unsupported then StatusUnsupported
      else if best.Some? then (if best.value.outcome == NotChecked then StatusNotChecked else Unknown)
      else StatusNotChecked;
    var material := check == DiscoveryQuestion || raisedBy == CandidateEvidence
      || (raisedBy == QualityPreference && HasCheckCapability(check))
      || negative.Some? || First(evaluated, IsPositive).Some?;
    QuestionResult(status, if best.Some? then best.value.coverage else NotApplicable,
      if selected.Some? then Some(selected.value.producer) else if best.Some? then Some(best.value.producer) else None,
      material)
  }

  /** The exemption for preference-only requests never applies: every question is material. */
  lemma QuestionIsMaterial(records: seq<QuestionRecord>, check: QuestionCheck, raisedBy: RaisedBy,
      discovery: Option<Discovery>, binding: Binding)
    ensures QuestionFinding(records, check, raisedBy, discovery, binding).material
  {
    hide Sort, QuestionEvaluations, First;
  }

  predicate FlaggingAnswer(r: QuestionRecord, check: QuestionCheck, binding: Binding) {
    Addresses(r, check, binding) && SupportsClaim(r.producer, r.question, r.claim) &&
        (r.outcome == Failed || r.outcome == Warned)
  }

  predicate AbsenceAnswer(r: QuestionRecord, check: QuestionCheck, discovery: Option<Discovery>, binding: Binding) {
    Addresses(r, check, binding) && IsCompleteAbsence(EvaluateQuestion(r, discovery))
  }

  predicate WitnessAnswer(r: QuestionRecord, check: QuestionCheck, discovery: Option<Discovery>, binding: Binding) {
    Addresses(r, check, binding) && IsPositiveWitness(EvaluateQuestion(r, discovery))
  }

  lemma QuestionMembers(records: seq<QuestionRecord>, check: QuestionCheck, discovery: Option<Discovery>,
      binding: Binding)
    ensures var es := QuestionEvaluations(records, check, discovery, binding);
      && ((exists e :: e in es && IsNegative(e)) <==> exists r :: r in records && FlaggingAnswer(r, check, binding))
      && ((exists e :: e in es && IsCompleteAbsence(e)) <==>
         exists r :: r in records && AbsenceAnswer(r, check, discovery, binding))
      && ((exists e :: e in es && IsPositiveWitness(e)) <==>
         exists r :: r in records && WitnessAnswer(r, check, discovery, binding))
  {
    hide VerdictFor, SupportsClaim, Establishes, ScopeNamesDiscovery;
    var es := QuestionEvaluations(records, check, discovery, binding);
    forall r | r in records && Addresses(r, check, binding)
      ensures EvaluateQuestion(r, discovery) in es
      ensures IsNegative(EvaluateQuestion(r, discovery)) <==> FlaggingAnswer(r, check, binding)
    {
    }
  }

  /**
   * A question resolves exactly when no bound record flags it and some bound record either proves
   * complete absence or, where no discovery remainder is left open, witnesses a finding.
   */
  lemma QuestionResolvedIff(records: seq<QuestionRecord>, check: QuestionCheck, raisedBy: RaisedBy,
      discovery: Option<Discovery>, binding: Binding)
    ensures IsResolved(QuestionFinding(records, check, raisedBy, discovery, binding).status) <==>
      && (forall r :: r in records ==> !FlaggingAnswer(r, check, binding))
      && ((exists r :: r in records && AbsenceAnswer(r, check, discovery, binding))
          || (!RemainderIncomplete(check, discovery) &&
              exists r :: r in records && WitnessAnswer(r, check, discovery, binding)))
  {
    hide EvaluateQuestion, QuestionKey, Sort, SupportsClaim, Establishes, RemainderIncomplete;
    var es := QuestionEvaluations(records, check, discovery, binding);
    SortKeeps(es, QuestionKey);
    QuestionMembers(records, check, discovery, binding);
  }

  /** Resolution of a question is blind to order, repetition and records bound elsewhere. */
  lemma QuestionResolutionIgnoresOthers(a: seq<QuestionRecord>, b: seq<QuestionRecord>, check: QuestionCheck,
      raisedBy: RaisedBy, discovery: Option<Discovery>, binding: Binding)
    requires forall r :: Addresses(r, check, binding) ==> (r in a <==> r in b)
    ensures IsResolved(QuestionFinding(a, check, raisedBy, discovery, binding).status)
      <==> IsResolved(QuestionFinding(b, check, raisedBy, discovery, binding).status)
  {
    hide QuestionFinding, EvaluateQuestion, SupportsClaim, Establishes;
    QuestionResolvedIff(a, check, raisedBy, discovery, binding);
    QuestionResolvedIff(b, check, raisedBy, discovery, binding);
  }

  /** A bound finding keeps a question open and material, whatever else is there. */
  lemma FlaggedQuestionStaysOpen(records: seq<QuestionRecord>, r: QuestionRecord, check: QuestionCheck,
      raisedBy: RaisedBy, discovery: Option<Discovery>, binding: Binding)
    requires r in records && FlaggingAnswer(r, check, binding)
    ensures var q := QuestionFinding(records, check, raisedBy, discovery, binding);
            q.material && q.status in {Fail, Warn}
  {
    hide EvaluateQuestion, QuestionKey, Sort, SupportsClaim, Establishes;
    var es := QuestionEvaluations(records, check, discovery, binding);
    SortKeeps(es, QuestionKey);
    QuestionMembers(records, check, discovery, binding);
  }

  ghost predicate NamesWholeScope(r: QuestionRecord, discovery: Discovery, binding: Binding) {
    r.binding == binding && r.claim == NegativeAbsence && r.completeness == Complete &&
        ScopeNamesDiscovery(r.scope, Some(discovery))
  }

  /** Over an incomplete discovery only a record naming exactly the same units resolves adequacy. */
  lemma IncompleteDiscoveryNeedsNamedScope(records: seq<QuestionRecord>, raisedBy: RaisedBy, discovery: Discovery,
      binding: Binding)
    requires !discovery.complete
    requires IsResolved(QuestionFinding(records, DiscoveryQuestion, raisedBy, Some(discovery), binding).status)
    ensures exists r :: r in records && NamesWholeScope(r, discovery, binding)
  {
    hide QuestionFinding, SupportsClaim, Establishes, VerdictFor;
    QuestionResolvedIff(records, DiscoveryQuestion, raisedBy, Some(discovery), binding);
    var r :| r in records && AbsenceAnswer(r, DiscoveryQuestion, Some(discovery), binding);
    assert NamesWholeScope(r, discovery, binding);
  }

  /**
   * Which of two contradictory findings a question reports does depend on their order: the
   * comparison does not look at the outcome, so a FAIL and a WARN of one producer tie.
   */
  lemma QuestionStatusDependsOnOrder(binding: Binding)
    ensures var fail := QuestionRecord(SecurityDiscoveryQuestion, SecurityQuestion, ConcernDiscoveryScan, Failed,
        PositiveFinding, CompletenessNotApplicable, Full, Structural, [], None, binding);
      var warn := fail.(outcome := Warned);
      && QuestionFinding([fail, warn], SecurityQuestion, CandidateEvidence, None, binding).status == Fail
      && QuestionFinding([warn, fail], SecurityQuestion, CandidateEvidence, None, binding).status == Warn
  {
    var fail := QuestionRecord(SecurityDiscoveryQuestion, SecurityQuestion, ConcernDiscoveryScan, Failed,
      PositiveFinding, CompletenessNotApplicable, Full, Structural, [], None, binding);
    var warn := fail.(outcome := Warned);
    var f, w := EvaluateQuestion(fail, None), EvaluateQuestion(warn, None);
    TwoAnswers(fail, warn, SecurityQuestion, binding);
    TwoAnswers(warn, fail, SecurityQuestion, binding);
  }

  lemma TwoAnswers(a: QuestionRecord, b: QuestionRecord, check: QuestionCheck, binding: Binding)
    requires Addresses(a, check, binding) && Addresses(b, check, binding)
    requires QuestionKey(EvaluateQuestion(a, None)) == QuestionKey(EvaluateQuestion(b, None))
    ensures Sort(QuestionEvaluations([a, b], check, None, binding), QuestionKey) ==
            [EvaluateQuestion(a, None), EvaluateQuestion(b, None)]
  {
    hide EvaluateQuestion, QuestionKey, Addresses, Sort;
    assert [a, b][..1] == [a] && [a][..0] == [];
    assert QuestionEvaluations([], check, None, binding) == [];
    assert QuestionEvaluations([a], check, None, binding) == [EvaluateQuestion(a, None)];
    assert QuestionEvaluations([a, b], check, None, binding) == [EvaluateQuestion(a, None), EvaluateQuestion(b, None)];
    TwoSorted(EvaluateQuestion(a, None), EvaluateQuestion(b, None), QuestionKey);
  }

  lemma TwoSorted(x: Evaluated, y: Evaluated, key: Evaluated -> nat)
    requires key(x) == key(y)
    ensures Sort([x, y], key) == [x, y]
  {
    assert [x, y][..1] == [x] && [x][..0] == [];
    assert Sort([x], key) == [x];
    assert [x][1..] == [];
    assert Insert(y, [x], key) == [x] + Insert(y, [], key);
  }

  // ----- when the order of the evidence does not show -----

  /** One of the records that come first, of those satisfying `p`. */
  ghost predicate Least(es: seq<Evaluated>, p: Evaluated -> bool, e: Evaluated) {
    e in es && p(e) && forall x :: x in es && p(x) ==> QuestionKey(e) <= QuestionKey(x)
  }

  /** The records that may come first agree on `q`. */
  ghost predicate LeastAgree(es: seq<Evaluated>, p: Evaluated -> bool, q: Evaluated -> bool) {
    forall e, f :: Least(es, p, e) && Least(es, p, f) ==> q(e) == q(f)
  }

  predicate HasFailed(e: Evaluated) { e.outcome == Failed }

  predicate ReadsUnchecked(e: Evaluated) { e.coverage != Unsupported && e.outcome == NotChecked }

  predicate IsRemainder(e: Evaluated) { IsUncheckedAbsence(e) || IsInadequateAbsence(e) }

  ghost predicate Has(es: seq<Evaluated>, p: Evaluated -> bool) {
    exists e :: e in es && p(e)
  }

  /**
   * Flags that tie agree on failing. Without a flag and without an answer, and unless an incomplete
   * discovery reports an absence record, the records that tie for first place agree on whether the
   * question reads as not checked.
   */
  ghost predicate TiesAgree(es: seq<Evaluated>, incomplete: bool) {
    if Has(es, IsNegative) then LeastAgree(es, IsNegative, HasFailed)
    else
      || Has(es, IsCompleteAbsence) || (!incomplete && Has(es, IsPositiveWitness))
      || (incomplete && Has(es, IsRemainder))
      || LeastAgree(es, IsAny, ReadsUnchecked)
  }

  /** The status of a question; what raised it plays no part in it. */
  function StatusOf(records: seq<QuestionRecord>, check: QuestionCheck, discovery: Option<Discovery>,
      binding: Binding): Status {
    QuestionFinding(records, check, CandidateEvidence, discovery, binding).status
  }

  lemma StatusIgnoresOrigin(records: seq<QuestionRecord>, check: QuestionCheck, raisedBy: RaisedBy,
      discovery: Option<Discovery>, binding: Binding)
    ensures QuestionFinding(records, check, raisedBy, discovery, binding).status ==
            StatusOf(records, check, discovery, binding)
  {
    hide Sort, QuestionEvaluations, First;
  }

  ghost predicate SameMembers(a: seq<Evaluated>, b: seq<Evaluated>) {
    forall x :: x in a <==> x in b
  }

  lemma FirstIsAmongLeast(es: seq<Evaluated>, p: Evaluated -> bool)
    ensures var first := First(Sort(es, QuestionKey), p);
            (first.Some? <==> Has(es, p)) && (first.Some? ==> Least(es, p, first.value))
  {
    hide QuestionKey;
    SortKeeps(es, QuestionKey);
    if First(Sort(es, QuestionKey), p).Some? { FirstIsLeast(Sort(es, QuestionKey), p, QuestionKey); }
  }

  /** What a status reads of the sorted evaluations: the first flag, whether there is an answer, the first of all. */
  lemma StatusReads(records: seq<QuestionRecord>, check: QuestionCheck, discovery: Option<Discovery>, binding: Binding)
    ensures var es := QuestionEvaluations(records, check, discovery, binding);
            var sorted := Sort(es, QuestionKey);
            var incomplete := RemainderIncomplete(check, discovery);
            var status := StatusOf(records, check, discovery, binding);
            && (Has(es, IsNegative) ==>
                  && First(sorted, IsNegative).Some?
                  && status == (if HasFailed(First(sorted, IsNegative).value) then Fail else Warn))
            && (!Has(es, IsNegative) && (Has(es, IsCompleteAbsence) || (!incomplete && Has(es, IsPositiveWitness))) ==>
                  status == Pass)
  {
    hide QuestionEvaluations, QuestionKey, Sort, RemainderIncomplete;
    var es := QuestionEvaluations(records, check, discovery, binding);
    FirstIsAmongLeast(es, IsNegative);
    FirstIsAmongLeast(es, IsCompleteAbsence);
    FirstIsAmongLeast(es, IsPositiveWitness);
  }

  /** Of a single record, the status of a question that nothing answers. */
  function Unanswered(best: Option<Evaluated>): Status {
    if best.None? then StatusNotChecked
    else if best.value.coverage == Unsupported then StatusUnsupported
    else if best.value.outcome == NotChecked then StatusNotChecked
    else Unknown
  }

  lemma UnansweredReads(records: seq<QuestionRecord>, check: QuestionCheck, discovery: Option<Discovery>,
      binding: Binding)
    requires var es := QuestionEvaluations(records, check, discovery, binding);
             && !Has(es, IsNegative) && !Has(es, IsCompleteAbsence)
             && (RemainderIncomplete(check, discovery) || !Has(es, IsPositiveWitness))
    ensures var es := QuestionEvaluations(records, check, discovery, binding);
            var sorted := Sort(es, QuestionKey);
            var remainder := OrElse(First(sorted, IsUncheckedAbsence), First(sorted, IsInadequateAbsence));
            StatusOf(records, check, discovery, binding) ==
            Unanswered(OrElse(if RemainderIncomplete(check, discovery) then remainder else None, First(sorted, IsAny)))
  {
    hide QuestionEvaluations, QuestionKey, Sort, RemainderIncomplete;
    var es := QuestionEvaluations(records, check, discovery, binding);
    FirstIsAmongLeast(es, IsNegative);
    FirstIsAmongLeast(es, IsCompleteAbsence);
    FirstIsAmongLeast(es, IsPositiveWitness);
  }

  /** Records of equal key differ at most in outcome and claim. */
  lemma KeyDetermines(a: Evaluated, b: Evaluated)
    requires QuestionKey(a) == QuestionKey(b)
    ensures a.adequate == b.adequate && a.coverage == b.coverage && a.strength == b.strength && a.producer == b.producer
  {
  }

  lemma LeastTie(es: seq<Evaluated>, p: Evaluated -> bool, e: Evaluated, f: Evaluated)
    requires Least(es, p, e) && Least(es, p, f)
    ensures QuestionKey(e) == QuestionKey(f) && e.coverage == f.coverage
  {
    KeyDetermines(e, f);
  }

  lemma HasSame(a: seq<Evaluated>, b: seq<Evaluated>, p: Evaluated -> bool)
    requires SameMembers(a, b)
    ensures Has(a, p) == Has(b, p) && forall e :: Least(a, p, e) == Least(b, p, e)
  {
    hide QuestionKey;
  }

  /** The unanswered status of tied first records that agree. */
  lemma UnansweredAgrees(a: seq<Evaluated>, b: seq<Evaluated>, p: Evaluated -> bool)
    requires SameMembers(a, b) && LeastAgree(a, p, ReadsUnchecked)
    ensures Unanswered(First(Sort(a, QuestionKey), p)) == Unanswered(First(Sort(b, QuestionKey), p))
  {
    hide QuestionKey, Sort, First;
    FirstIsAmongLeast(a, p);
    FirstIsAmongLeast(b, p);
    HasSame(a, b, p);
    var x, y := First(Sort(a, QuestionKey), p), First(Sort(b, QuestionKey), p);
    if x.Some? {
      LeastTie(a, p, x.value, y.value);
      assert ReadsUnchecked(x.value) == ReadsUnchecked(y.value);
    }
  }

  /** Absence records that are not checked, or of which none is, agree among themselves. */
  lemma RemaindersAgree(es: seq<Evaluated>)
    ensures LeastAgree(es, IsUncheckedAbsence, ReadsUnchecked)
    ensures !Has(es, IsUncheckedAbsence) ==> LeastAgree(es, IsInadequateAbsence, ReadsUnchecked)
  {
    hide QuestionKey;
    forall e, f | Least(es, IsUncheckedAbsence, e) && Least(es, IsUncheckedAbsence, f)
      ensures ReadsUnchecked(e) == ReadsUnchecked(f)
    {
      LeastTie(es, IsUncheckedAbsence, e, f);
    }
  }

  predicate SameAddressed(a: seq<QuestionRecord>, b: seq<QuestionRecord>, check: QuestionCheck, binding: Binding,
      r: QuestionRecord) {
    Addresses(r, check, binding) ==> (r in a <==> r in b)
  }

  lemma SameQuestionEvaluations(a: seq<QuestionRecord>, b: seq<QuestionRecord>, check: QuestionCheck,
      discovery: Option<Discovery>, binding: Binding)
    requires forall r :: SameAddressed(a, b, check, binding, r)
    ensures SameMembers(QuestionEvaluations(a, check, discovery, binding),
            QuestionEvaluations(b, check, discovery, binding))
  {
    hide Addresses, EvaluateQuestion;
    var ea, eb := QuestionEvaluations(a, check, discovery, binding), QuestionEvaluations(b, check, discovery, binding);
    forall x ensures x in ea <==> x in eb {
      if x in ea {
        var r :| r in a && Addresses(r, check, binding) && x == EvaluateQuestion(r, discovery);
        assert SameAddressed(a, b, check, binding, r);
      }
      if x in eb {
        var r :| r in b && Addresses(r, check, binding) && x == EvaluateQuestion(r, discovery);
        assert SameAddressed(a, b, check, binding, r);
      }
    }
  }

  /** Where ties agree, the status depends only on which bound records there are. */
  lemma AgreeingStatusIgnoresOthers(a: seq<QuestionRecord>, b: seq<QuestionRecord>, check: QuestionCheck,
      discovery: Option<Discovery>, binding: Binding)
    requires forall r :: SameAddressed(a, b, check, binding, r)
    requires TiesAgree(QuestionEvaluations(a, check, discovery, binding), RemainderIncomplete(check, discovery))
    ensures StatusOf(a, check, discovery, binding) == StatusOf(b, check, discovery, binding)
  {
    hide QuestionEvaluations, QuestionKey, Sort, First, RemainderIncomplete, StatusOf, SameMembers, Least;
    SameQuestionEvaluations(a, b, check, discovery, binding);
    var ea, eb := QuestionEvaluations(a, check, discovery, binding), QuestionEvaluations(b, check, discovery, binding);
    HasSame(ea, eb, IsNegative);
    HasSame(ea, eb, IsCompleteAbsence);
    HasSame(ea, eb, IsPositiveWitness);
    StatusReads(a, check, discovery, binding);
    StatusReads(b, check, discovery, binding);
    if Has(ea, IsNegative) {
      FirstIsAmongLeast(ea, IsNegative);
      FirstIsAmongLeast(eb, IsNegative);
    } else if !(Has(ea, IsCompleteAbsence) || (!RemainderIncomplete(check, discovery) && Has(ea, IsPositiveWitness))) {
      UnansweredReads(a, check, discovery, binding);
      UnansweredReads(b, check, discovery, binding);
      UnansweredSame(ea, eb, RemainderIncomplete(check, discovery));
    }
  }

  /** The record an unanswered question reads. */
  function Best(es: seq<Evaluated>, incomplete: bool): Option<Evaluated> {
    var sorted := Sort(es, QuestionKey);
    var remainder := OrElse(First(sorted, IsUncheckedAbsence), First(sorted, IsInadequateAbsence));
    OrElse(if incomplete then remainder else None, First(sorted, IsAny))
  }

  lemma UnansweredSame(a: seq<Evaluated>, b: seq<Evaluated>, incomplete: bool)
    requires SameMembers(a, b)
    requires (incomplete && Has(a, IsRemainder)) || LeastAgree(a, IsAny, ReadsUnchecked)
    ensures Unanswered(Best(a, incomplete)) == Unanswered(Best(b, incomplete))
  {
    hide QuestionKey, Sort, First, Unanswered, LeastAgree, SameMembers, Least;
    HasSame(a, b, IsUncheckedAbsence);
    HasSame(a, b, IsInadequateAbsence);
    FirstIsAmongLeast(a, IsUncheckedAbsence);
    FirstIsAmongLeast(b, IsUncheckedAbsence);
    FirstIsAmongLeast(a, IsInadequateAbsence);
    FirstIsAmongLeast(b, IsInadequateAbsence);
    RemaindersAgree(a);
    if incomplete && Has(a, IsUncheckedAbsence) {
      UnansweredAgrees(a, b, IsUncheckedAbsence);
    } else if incomplete && Has(a, IsInadequateAbsence) {
      UnansweredAgrees(a, b, IsInadequateAbsence);
    } else {
      UnansweredAgrees(a, b, IsAny);
    }
  }

  /** Inserting a record does not displace the first match unless it comes before it. */
  lemma {:induction false} InsertKeepsFirst(x: Evaluated, sorted: seq<Evaluated>, p: Evaluated -> bool, e: Evaluated)
    requires Ascending(sorted, QuestionKey) && First(sorted, p) == Some(e)
    requires p(x) ==> QuestionKey(e) <= QuestionKey(x)
    ensures First(Insert(x, sorted, QuestionKey), p) == Some(e)
    decreases sorted
  {
    hide QuestionKey;
    if QuestionKey(x) < QuestionKey(sorted[0]) {
      assert e in sorted;
      assert ([x] + sorted)[1..] == sorted;
    } else if !p(sorted[0]) {
      InsertKeepsFirst(x, sorted[1..], p, e);
      assert ([sorted[0]] + Insert(x, sorted[1..], QuestionKey))[1..] == Insert(x, sorted[1..], QuestionKey);
    }
  }

  lemma SortMore(all: seq<Evaluated>, last: Evaluated)
    ensures Sort(all + [last], QuestionKey) == Insert(last, Sort(all, QuestionKey), QuestionKey)
  {
    hide QuestionKey, Insert;
    assert (all + [last])[..|all|] == all;
  }

  lemma SortOne(e: Evaluated)
    ensures Sort([e], QuestionKey) == [e]
  {
    hide QuestionKey;
    assert [e][..0] == [];
  }

  lemma FirstOne(e: Evaluated, p: Evaluated -> bool)
    requires p(e)
    ensures First([e], p) == Some(e)
  {
  }

  /** Of the tied first matches, the one that stands in front is found. */
  lemma {:induction false} FrontIsFound(e: Evaluated, rest: seq<Evaluated>, p: Evaluated -> bool)
    requires p(e) && forall x :: x in rest && p(x) ==> QuestionKey(e) <= QuestionKey(x)
    ensures First(Sort([e] + rest, QuestionKey), p) == Some(e)
    decreases rest
  {
    hide QuestionKey, Sort, First, Insert;
    if rest == [] {
      assert [e] + rest == [e];
      SortOne(e);
      FirstOne(e, p);
    } else {
      var init, last := rest[..|rest| - 1], rest[|rest| - 1];
      assert last in rest && forall x :: x in init ==> x in rest;
      FrontIsFound(e, init, p);
      SortKeeps([e] + init, QuestionKey);
      InsertKeepsFirst(last, Sort([e] + init, QuestionKey), p, e);
      SortMore([e] + init, last);
      assert [e] + rest == [e] + init + [last];
    }
  }

  lemma {:induction false} EvaluationsConcat(a: seq<QuestionRecord>, b: seq<QuestionRecord>, check: QuestionCheck,
      discovery: Option<Discovery>, binding: Binding)
    ensures QuestionEvaluations(a + b, check, discovery, binding)
         == QuestionEvaluations(a, check, discovery, binding) + QuestionEvaluations(b, check, discovery, binding)
    decreases b
  {
    hide Addresses, EvaluateQuestion;
    if b == [] {
      assert a + b == a;
    } else {
      var init := b[..|b| - 1];
      assert (a + b)[..|a + b| - 1] == a + init;
      EvaluationsConcat(a, init, check, discovery, binding);
    }
  }

  /** Some permutation of the records puts a given one of them in front. */
  lemma Fronted(a: seq<QuestionRecord>, r: QuestionRecord, check: QuestionCheck, discovery: Option<Discovery>,
      binding: Binding) returns (b: seq<QuestionRecord>)
    requires r in a && Addresses(r, check, binding)
    ensures multiset(b) == multiset(a)
    ensures var es, e := QuestionEvaluations(b, check, discovery, binding), EvaluateQuestion(r, discovery);
            es != [] && es == [e] + es[1..] && SameMembers(es, QuestionEvaluations(a, check, discovery, binding))
  {
    hide Addresses, EvaluateQuestion, QuestionEvaluations;
    var i :| 0 <= i < |a| && a[i] == r;
    b := [r] + (a[..i] + a[i + 1..]);
    assert a == a[..i] + [r] + a[i + 1..];
    EvaluationsConcat([r], a[..i] + a[i + 1..], check, discovery, binding);
    OneEvaluation(r, check, discovery, binding);
    forall x ensures x in a <==> x in b {
    }
    SameQuestionEvaluations(b, a, check, discovery, binding);
  }

  lemma OneEvaluation(r: QuestionRecord, check: QuestionCheck, discovery: Option<Discovery>, binding: Binding)
    requires Addresses(r, check, binding)
    ensures QuestionEvaluations([r], check, discovery, binding) == [EvaluateQuestion(r, discovery)]
  {
    hide Addresses, EvaluateQuestion;
    assert [r][..0] == [];
  }

  /** Every order of the evidence reports the same status. */
  ghost predicate OrderFree(a: seq<QuestionRecord>, check: QuestionCheck, discovery: Option<Discovery>,
      binding: Binding) {
    forall b: seq<QuestionRecord> {:trigger StatusOf(b, check, discovery, binding)} ::
      multiset(b) == multiset(a) ==> StatusOf(b, check, discovery, binding) == StatusOf(a, check, discovery, binding)
  }

  /** With a tied first flag in front, its outcome is the status. */
  lemma FrontFlag(a: seq<QuestionRecord>, e: Evaluated, check: QuestionCheck, discovery: Option<Discovery>,
      binding: Binding) returns (b: seq<QuestionRecord>)
    requires Least(QuestionEvaluations(a, check, discovery, binding), IsNegative, e)
    ensures multiset(b) == multiset(a)
    ensures StatusOf(b, check, discovery, binding) == (if HasFailed(e) then Fail else Warn)
  {
    hide QuestionKey, Sort, First, StatusOf, Addresses, EvaluateQuestion;
    var r :| r in a && Addresses(r, check, binding) && e == EvaluateQuestion(r, discovery);
    b := Fronted(a, r, check, discovery, binding);
    var es := QuestionEvaluations(b, check, discovery, binding);
    FrontIsFound(e, es[1..], IsNegative);
    StatusReads(b, check, discovery, binding);
    assert e in es;
  }

  /** Without flag, answer or remainder, the tied first record in front is what the question reads. */
  lemma FrontRead(a: seq<QuestionRecord>, e: Evaluated, check: QuestionCheck, discovery: Option<Discovery>,
      binding: Binding) returns (b: seq<QuestionRecord>)
    requires var es, incomplete :=
             QuestionEvaluations(a, check, discovery, binding), RemainderIncomplete(check, discovery);
             && !Has(es, IsNegative) && !Has(es, IsCompleteAbsence) && (incomplete || !Has(es, IsPositiveWitness))
             && !(incomplete && Has(es, IsRemainder)) && Least(es, IsAny, e)
    ensures multiset(b) == multiset(a) && StatusOf(b, check, discovery, binding) == Unanswered(Some(e))
  {
    hide QuestionKey, Sort, StatusOf, Addresses, EvaluateQuestion, RemainderIncomplete;
    var r :| r in a && Addresses(r, check, binding) && e == EvaluateQuestion(r, discovery);
    b := Fronted(a, r, check, discovery, binding);
    var ea, es := QuestionEvaluations(a, check, discovery, binding), QuestionEvaluations(b, check, discovery, binding);
    HasSame(es, ea, IsNegative);
    HasSame(es, ea, IsCompleteAbsence);
    HasSame(es, ea, IsPositiveWitness);
    HasSame(es, ea, IsRemainder);
    FrontIsFound(e, es[1..], IsAny);
    UnansweredReads(b, check, discovery, binding);
    FirstIsAmongLeast(es, IsUncheckedAbsence);
    FirstIsAmongLeast(es, IsInadequateAbsence);
  }

  /** Tied flags that disagree, or tied unanswered records that do, report differently in some orders. */
  lemma DisagreeingTiesShow(a: seq<QuestionRecord>, check: QuestionCheck, discovery: Option<Discovery>,
      binding: Binding)
    requires !TiesAgree(QuestionEvaluations(a, check, discovery, binding), RemainderIncomplete(check, discovery))
    ensures !OrderFree(a, check, discovery, binding)
  {
    hide QuestionEvaluations, QuestionKey, Least, StatusOf, RemainderIncomplete;
    var es := QuestionEvaluations(a, check, discovery, binding);
    if Has(es, IsNegative) {
      var e, f :| Least(es, IsNegative, e) && Least(es, IsNegative, f) && HasFailed(e) != HasFailed(f);
      var b := FrontFlag(a, e, check, discovery, binding);
      var c := FrontFlag(a, f, check, discovery, binding);
      assert StatusOf(b, check, discovery, binding) != StatusOf(c, check, discovery, binding);
    } else {
      var e, f :| Least(es, IsAny, e) && Least(es, IsAny, f) && ReadsUnchecked(e) != ReadsUnchecked(f);
      var b := FrontRead(a, e, check, discovery, binding);
      var c := FrontRead(a, f, check, discovery, binding);
      LeastTie(es, IsAny, e, f);
      assert StatusOf(b, check, discovery, binding) != StatusOf(c, check, discovery, binding);
    }
  }

  /** The status is the same in every order of the evidence exactly when ties agree. */
  lemma StatusOrderFreeIff(a: seq<QuestionRecord>, check: QuestionCheck, discovery: Option<Discovery>, binding: Binding)
    ensures OrderFree(a, check, discovery, binding)
       <==> TiesAgree(QuestionEvaluations(a, check, discovery, binding), RemainderIncomplete(check, discovery))
  {
    hide QuestionEvaluations, TiesAgree, StatusOf, RemainderIncomplete, Addresses;
    if TiesAgree(QuestionEvaluations(a, check, discovery, binding), RemainderIncomplete(check, discovery)) {
      forall b: seq<QuestionRecord> | multiset(b) == multiset(a)
        ensures StatusOf(b, check, discovery, binding) == StatusOf(a, check, discovery, binding)
      {
        PermutedAddressed(a, b, check, binding);
        AgreeingStatusIgnoresOthers(a, b, check, discovery, binding);
      }
    } else {
      DisagreeingTiesShow(a, check, discovery, binding);
    }
  }

  lemma PermutedAddressed(a: seq<QuestionRecord>, b: seq<QuestionRecord>, check: QuestionCheck, binding: Binding)
    requires multiset(a) == multiset(b)
    ensures forall r :: SameAddressed(a, b, check, binding, r)
  {
    forall r ensures SameAddressed(a, b, check, binding, r) {
      assert r in a <==> r in multiset(a);
      assert r in b <==> r in multiset(b);
    }
  }
}
