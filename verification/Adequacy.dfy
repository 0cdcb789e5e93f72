/** What each checking capability may establish, how completely, and how strongly. */
module Adequacy {

  datatype Coverage = Unsupported | Partial | Full | NotApplicable

  datatype Strength = Lexical | Structural | Behavioral | Measured

  datatype Claim = PositiveFinding | NegativeAbsence

  datatype Completeness = CompletenessNotApplicable | Complete | Incomplete

  datatype LanguageClass = TsJs | Python | Shell | GenericScripting | BoundedCompiled | Unmodelled | ConfigWorkflow

  /** Concern types first, then the plan-level questions. */
  datatype Target =
    | CredentialLiteral | SensitiveInputFlow | EnvSecretExposure | DependencyVulnerability
    | AuthorizationBehavior | SubprocessExecution | CodeFaultScenario | OperationalArtefact
    | ScopeAdequacyQuestion | SecurityDiscoveryQuestion | ScenarioDiscoveryQuestion | ScenarioExecutionQuestion

  predicate IsSecurityConcern(t: Target) {
    t in {CredentialLiteral, SensitiveInputFlow, EnvSecretExposure, DependencyVulnerability,
          AuthorizationBehavior, SubprocessExecution}
  }

  datatype Capability =
    | ConcernWitness | BoundedChangeClassifier | CredentialLiteralScan | ConcernDiscoveryScan
    | NonBehavioralClassifier | SemanticFlowScan | DependencyVulnerabilityScan | CodeRelevanceScan
    | FaultScenarioExecution

  /** Registry key order. */
  const CAPABILITIES: seq<Capability> := [
    ConcernWitness, BoundedChangeClassifier, CredentialLiteralScan, ConcernDiscoveryScan,
    NonBehavioralClassifier, SemanticFlowScan, DependencyVulnerabilityScan, CodeRelevanceScan,
    FaultScenarioExecution
  ]

  function CoverageRank(c: Coverage): nat {
    match c
    case Unsupported => 0
    case Partial => 1
    case Full => 2
    case NotApplicable => 3
  }

  function StrengthRank(s: Strength): nat {
    match s
    case Lexical => 0
    case Structural => 1
    case Behavioral => 2
    case Measured => 3
  }

  predicate MeetsStrength(actual: Strength, required: Strength) {
    StrengthRank(actual) >= StrengthRank(required)
  }

  /** Coverage per language class; a class the registry leaves out is unsupported. */
  datatype Row = Row(
    tsJs: Coverage, python: Coverage, shell: Coverage, generic: Coverage,
    bounded: Coverage, unmodelled: Coverage, config: Coverage)
  {
    function At(c: LanguageClass): Coverage {
      match c
      case TsJs => tsJs
      case Python => python
      case Shell => shell
      case GenericScripting => generic
      case BoundedCompiled => bounded
      case Unmodelled => unmodelled
      case ConfigWorkflow => config
    }
  }

  const SILENT := Row(Unsupported, Unsupported, Unsupported, Unsupported, Unsupported, Unsupported, Unsupported)

  datatype Establishment = Establishment(
    target: Target, strength: Strength, claims: set<Claim>, positive: Row, negative: Row)

  function Both(target: Target, strength: Strength, row: Row): Establishment {
    Establishment(target, strength, {PositiveFinding, NegativeAbsence}, row, row)
  }

  /** The adequacy registry. */
  function Establishments(c: Capability): seq<Establishment> {
    match c
    case ConcernWitness => [
      Establishment(ScopeAdequacyQuestion, Structural, {PositiveFinding},
        Row(Full, Full, Partial, Partial, Full, Full, Full), SILENT)]
    case BoundedChangeClassifier =>
      var row := Row(Full, Full, Partial, Unsupported, Full, Unsupported, Unsupported);
      [Establishment(ScopeAdequacyQuestion, Structural, {NegativeAbsence}, row, row)]
    case CredentialLiteralScan => [
      Both(CredentialLiteral, Structural, Row(Full, Full, Full, Full, Partial, Partial, Partial))]
    case ConcernDiscoveryScan => [
      Establishment(SecurityDiscoveryQuestion, Structural, {PositiveFinding},
        Row(Full, Full, Partial, Partial, Full, Full, Unsupported), SILENT)]
    case NonBehavioralClassifier =>
      var row := Row(Full, Full, Partial, Unsupported, Full, Unsupported, Unsupported);
      [Establishment(SecurityDiscoveryQuestion, Structural, {NegativeAbsence}, row, row)]
    case SemanticFlowScan => [
      Both(SensitiveInputFlow, Structural, Row(Full, Full, Full, Partial, Unsupported, Unsupported, Unsupported)),
      Both(EnvSecretExposure, Structural,
          Row(Partial, Partial, Partial, Partial, Unsupported, Unsupported, Unsupported))]
    case DependencyVulnerabilityScan => [
      Establishment(DependencyVulnerability, Structural, {PositiveFinding},
        Row(Partial, Partial, Partial, Partial, Partial, Partial, Partial), SILENT)]
    case CodeRelevanceScan => [
      Both(ScenarioDiscoveryQuestion, Structural,
          Row(Full, Partial, Partial, Partial, Unsupported, Unsupported, Unsupported)),
      Both(CodeFaultScenario, Structural, Row(Full, Partial, Partial, Partial, Unsupported, Unsupported, Unsupported))]
    case FaultScenarioExecution => [
      Both(ScenarioExecutionQuestion, Measured, Row(Full, Full, Full, Full, Unsupported, Unsupported, Unsupported)),
      Both(CodeFaultScenario, Measured, Row(Full, Full, Full, Full, Unsupported, Unsupported, Unsupported))]
  }

  datatype Entry = NoEntry | Found(e: Establishment)

  /** The first registry entry of a capability for a target. */
  function EntryFor(c: Capability, t: Target): (entry: Entry)
    ensures entry.Found? ==> entry.e in Establishments(c) && entry.e.target == t
    ensures entry.NoEntry? ==> forall e :: e in Establishments(c) ==> e.target != t
  {
    var es := Establishments(c);
    if es[0].target == t then Found(es[0])
    else if |es| > 1 && es[1].target == t then Found(es[1])
    else NoEntry
  }

  predicate Establishes(c: Capability, t: Target) {
    EntryFor(c, t).Found?
  }

  /** The capabilities that speak to a target, in registry order. */
  function CapabilitiesEstablishing(t: Target): seq<Capability> {
    EstablishingAmong(t, CAPABILITIES)
  }

  function EstablishingAmong(t: Target, among: seq<Capability>): (producers: seq<Capability>)
    ensures forall c :: c in producers <==> c in among && Establishes(c, t)
    ensures (forall c :: c in among ==> !Establishes(c, t)) ==> producers == []
  {
    if among == [] then []
    else if Establishes(among[0], t) then [among[0]] + EstablishingAmong(t, among[1..])
    else EstablishingAmong(t, among[1..])
  }

  lemma AllRegistered(c: Capability, t: Target)
    ensures c in CapabilitiesEstablishing(t) <==> Establishes(c, t)
  {
    match c
    case ConcernWitness => assert CAPABILITIES[0] == c;
    case BoundedChangeClassifier => assert CAPABILITIES[1] == c;
    case CredentialLiteralScan => assert CAPABILITIES[2] == c;
    case ConcernDiscoveryScan => assert CAPABILITIES[3] == c;
    case NonBehavioralClassifier => assert CAPABILITIES[4] == c;
    case SemanticFlowScan => assert CAPABILITIES[5] == c;
    case DependencyVulnerabilityScan => assert CAPABILITIES[6] == c;
    case CodeRelevanceScan => assert CAPABILITIES[7] == c;
    case FaultScenarioExecution => assert CAPABILITIES[8] == c;
  }

  predicate SupportsClaim(c: Capability, t: Target, claim: Claim) {
    exists e :: e in Establishments(c) && e.target == t && claim in e.claims
  }

  /** The weakest coverage over the classes; no class at all is not applicable. */
  function Worst(row: Row, classes: seq<LanguageClass>): (worst: Coverage)
    ensures worst == NotApplicable || exists c :: c in classes && row.At(c) == worst
    ensures forall c :: c in classes ==> CoverageRank(worst) <= CoverageRank(row.At(c))
  {
    if classes == [] then NotApplicable
    else
      var before := Worst(row, classes[..|classes| - 1]);
      var last := row.At(classes[|classes| - 1]);
      if CoverageRank(last) < CoverageRank(before) then last else before
  }

  datatype Verdict = Verdict(establishes: bool, coverage: Coverage, strength: Strength)

  /** A capability without an entry has no strength of its own; readers fall back on `Lexical`. */
  function VerdictFor(c: Capability, t: Target, classes: seq<LanguageClass>, claim: Claim): Verdict {
    match EntryFor(c, t)
    case NoEntry => Verdict(false, Unsupported, Lexical)
    case Found(e) =>
      if classes == [] then Verdict(true, NotApplicable, e.strength)
      else Verdict(true, Worst(if claim == NegativeAbsence then e.negative else e.positive, classes), e.strength)
  }

  method CapabilityCoverageFor(c: Capability, t: Target, classes: seq<LanguageClass>, claim: Claim) returns (v: Verdict)
    ensures v == VerdictFor(c, t, classes, claim)
  {
    var entry := EntryFor(c, t);
    if entry.NoEntry? {
      return Verdict(false, Unsupported, Lexical);
    }
    if classes == [] {
      return Verdict(true, NotApplicable, entry.e.strength);
    }
    var coverageByClass := if claim == NegativeAbsence then entry.e.negative else entry.e.positive;
    var worst := NotApplicable;
    for i := 0 to |classes|
      invariant worst == Worst(coverageByClass, classes[..i])
    {
      assert classes[..i + 1][..i] == classes[..i];
      var coverage := coverageByClass.At(classes[i]);
      if CoverageRank(coverage) < CoverageRank(worst) {
        worst := coverage;
      }
    }
    assert classes[..|classes|] == classes;
    return Verdict(true, worst, entry.e.strength);
  }

  /** One class read badly cannot be laundered by another read well. */
  lemma {:induction false} WorstIsAntitone(row: Row, classes: seq<LanguageClass>, more: seq<LanguageClass>)
    requires forall c :: c in classes ==> c in more
    ensures CoverageRank(Worst(row, more)) <= CoverageRank(Worst(row, classes))
  {
    if Worst(row, classes) != NotApplicable {
      var c :| c in classes && row.At(c) == Worst(row, classes);
      assert c in more;
    }
  }

  /** Which classes occur decides the verdict, not how often or in which order. */
  lemma {:induction false} WorstIgnoresOrder(row: Row, a: seq<LanguageClass>, b: seq<LanguageClass>)
    requires forall c :: c in a <==> c in b
    ensures Worst(row, a) == Worst(row, b)
  {
    WorstIsAntitone(row, a, b);
    WorstIsAntitone(row, b, a);
  }

  lemma NothingSpeaks(c: Capability, t: Target)
    requires t in {AuthorizationBehavior, SubprocessExecution, OperationalArtefact}
    ensures !Establishes(c, t)
  {
  }

  /** No capability may even speak to these three. */
  lemma NothingEstablishes(t: Target)
    requires t in {AuthorizationBehavior, SubprocessExecution, OperationalArtefact}
    ensures CapabilitiesEstablishing(t) == [] && forall c :: !Establishes(c, t)
  {
    hide Establishes, CAPABILITIES;
    forall c
      ensures !Establishes(c, t)
    {
      NothingSpeaks(c, t);
    }
  }

  /** Nothing stronger than a resolved code shape exists for any security concern. */
  lemma {:induction false} SecurityIsStructural(c: Capability, t: Target, classes: seq<LanguageClass>, claim: Claim)
    requires IsSecurityConcern(t)
    ensures StrengthRank(VerdictFor(c, t, classes, claim).strength) <= StrengthRank(Structural)
  {
  }

  /** Scanner silence settles a dependency, a discovery witness or a positive scan nowhere. */
  lemma {:induction false} PositiveOnlyNeverNegative(c: Capability, t: Target, classes: seq<LanguageClass>)
    requires c in {ConcernWitness, ConcernDiscoveryScan, DependencyVulnerabilityScan}
    ensures !SupportsClaim(c, t, NegativeAbsence)
    ensures classes != [] ==> VerdictFor(c, t, classes, NegativeAbsence).coverage == Unsupported
  {
    if classes != [] && Establishes(c, t) {
      assert classes[0] in classes && SILENT.At(classes[0]) == Unsupported;
    }
  }

  // ----- what a provider may claim overall -----

  /** The most a capability's silence may cover: every target must allow negative claims. */
  method CapabilityNegativeAbsenceCeiling(c: Capability, classes: seq<LanguageClass>) returns (ceiling: Coverage)
    ensures (exists e :: e in Establishments(c) && NegativeAbsence !in e.claims) ==> ceiling == Unsupported
    ensures (forall e :: e in Establishments(c) ==> NegativeAbsence in e.claims) ==>
      && (classes == [] ==> ceiling == NotApplicable)
      && (forall e, k :: e in Establishments(c) && k in classes ==>
         CoverageRank(ceiling) <= CoverageRank(e.negative.At(k)))
      && (classes != [] && ceiling != Full ==>
         exists e, k :: e in Establishments(c) && k in classes && e.negative.At(k) == ceiling)
  {
    var entries := Establishments(c);
    if exists e :: e in entries && NegativeAbsence !in e.claims {
      return Unsupported;
    }
    ceiling := if classes == [] then NotApplicable else Full;
    for i := 0 to |entries|
      invariant classes == [] ==> ceiling == NotApplicable
      invariant forall j, k :: 0 <= j < i && k in classes ==>
                CoverageRank(ceiling) <= CoverageRank(entries[j].negative.At(k))
      invariant classes != [] && ceiling != Full ==>
                exists e, k :: e in entries && k in classes && e.negative.At(k) == ceiling
    {
      var row := entries[i].negative;
      for m := 0 to |classes|
        invariant classes == [] ==> ceiling == NotApplicable
        invariant forall j, k :: 0 <= j < i && k in classes ==>
                  CoverageRank(ceiling) <= CoverageRank(entries[j].negative.At(k))
        invariant forall n :: 0 <= n < m ==> CoverageRank(ceiling) <= CoverageRank(row.At(classes[n]))
        invariant classes != [] && ceiling != Full ==>
                  exists e, k :: e in entries && k in classes && e.negative.At(k) == ceiling
      {
        var coverage := row.At(classes[m]);
        if CoverageRank(coverage) < CoverageRank(ceiling) {
          ceiling := coverage;
          assert entries[i] in entries && classes[m] in classes && entries[i].negative.At(classes[m]) == ceiling;
        }
      }
    }
  }
}
