/**
 * The accounting behind concern discovery: who covers which changed unit, what is left over, and
 * what the resulting evidence may settle.
 */
module DiscoveryAccounting {
  import opened Wrappers
  import opened Adequacy
  import opened EvidenceFold

  // ----- attribution -----

  datatype UnitCoverage = PartlyCovered | FullyCovered

  datatype Attributed = Attributed(keys: seq<string>, coverage: UnitCoverage)

  ghost predicate EverAttributed(history: seq<Attributed>, key: string) {
    exists i :: 0 <= i < |history| && key in history[i].keys
  }

  /** Covered in full by at least one attribution and in part by none. */
  ghost predicate CoveredInFull(history: seq<Attributed>, key: string) {
    && EverAttributed(history, key)
    && forall i :: 0 <= i < |history| && key in history[i].keys ==> history[i].coverage == FullyCovered
  }

  /** The map says of every key what the attributions so far amount to. */
  ghost predicate Records(coverage: map<string, UnitCoverage>, history: seq<Attributed>) {
    && (forall k :: k in coverage <==> EverAttributed(history, k))
    && (forall k :: k in coverage ==> (coverage[k] == FullyCovered <==> CoveredInFull(history, k)))
  }

  /** `after` is `before` with `c` conjoined onto every one of `keys`. */
  ghost predicate Conjoined(before: map<string, UnitCoverage>, after: map<string, UnitCoverage>, keys: seq<string>,
      c: UnitCoverage) {
    && (forall k :: k in after <==> k in before || k in keys)
    && (forall k :: k in after && k !in keys ==> after[k] == before[k])
    && (forall k :: k in keys ==>
       k in after && (after[k] == FullyCovered <==> c == FullyCovered && (k in before ==> before[k] == FullyCovered)))
  }

  lemma ConjoinOne(before: map<string, UnitCoverage>, after: map<string, UnitCoverage>, keys: seq<string>,
      c: UnitCoverage, key: string)
    requires Conjoined(before, after, keys, c)
    ensures Conjoined(before,
      after[key := if (key in after && after[key] == PartlyCovered) || c == PartlyCovered then PartlyCovered
          else FullyCovered],
      keys + [key], c)
  {
  }

  lemma ConjoinRecords(before: map<string, UnitCoverage>, after: map<string, UnitCoverage>, keys: seq<string>,
      c: UnitCoverage, history: seq<Attributed>)
    requires Records(before, history) && Conjoined(before, after, keys, c)
    ensures Records(after, history + [Attributed(keys, c)])
  {
    hide EverAttributed, CoveredInFull;
    forall k
      ensures k in after <==> EverAttributed(history + [Attributed(keys, c)], k)
      ensures k in after ==> (after[k] == FullyCovered <==> CoveredInFull(history + [Attributed(keys, c)], k))
    {
      HistoryGrows(history, Attributed(keys, c), k);
    }
  }

  /** The set and the map the discovery pass writes its attributions to. */
  class Attribution {
    var attributed: set<string>
    var coverage: map<string, UnitCoverage>
    ghost var history: seq<Attributed>

    ghost predicate Valid()
      reads this
    {
      coverage.Keys == attributed && Records(coverage, history)
    }

    constructor ()
      ensures Valid() && history == []
    {
      attributed, coverage, history := {}, map[], [];
    }

    method Attribute(keys: seq<string>, c: UnitCoverage)
      requires Valid()
      modifies this
      ensures Valid() && history == old(history) + [Attributed(keys, c)]
    {
      hide Records, Conjoined;
      ghost var before := coverage;
      ConjoinNone(before, c);
      for n := 0 to |keys|
        invariant history == old(history) && coverage.Keys == attributed
        invariant Conjoined(before, coverage, keys[..n], c)
      {
        var key := keys[n];
        ConjoinOne(before, coverage, keys[..n], c, key);
        attributed := attributed + {key};
        coverage := coverage[key :=
          if (key in coverage && coverage[key] == PartlyCovered) || c == PartlyCovered then PartlyCovered
              else FullyCovered];
        assert keys[..n + 1] == keys[..n] + [key];
      }
      assert keys[..|keys|] == keys;
      ConjoinRecords(before, coverage, keys, c, history);
      history := history + [Attributed(keys, c)];
    }

    predicate IsFull(key: string)
      reads this
    {
      key in coverage && coverage[key] == FullyCovered
    }
  }

  lemma ConjoinNone(before: map<string, UnitCoverage>, c: UnitCoverage)
    ensures Conjoined(before, before, [], c)
  {
  }

  /** After any run of attributions a unit is full iff some attribution covered it and none in part. */
  lemma {:induction false} FullIffConjoined(a: Attribution, key: string)
    requires a.Valid()
    ensures a.IsFull(key) <==> CoveredInFull(a.history, key)
  {
    hide CoveredInFull;
    assert CoveredInFull(a.history, key) ==> EverAttributed(a.history, key) by { FullWasAttributed(a.history, key); }
  }

  lemma FullWasAttributed(history: seq<Attributed>, key: string)
    ensures CoveredInFull(history, key) ==> EverAttributed(history, key)
  {
  }

  lemma HistoryGrows(history: seq<Attributed>, last: Attributed, k: string)
    ensures EverAttributed(history + [last], k) <==> EverAttributed(history, k) || k in last.keys
    ensures CoveredInFull(history + [last], k) <==>
      && EverAttributed(history + [last], k)
      && (k in last.keys ==> last.coverage == FullyCovered)
      && (EverAttributed(history, k) ==> CoveredInFull(history, k))
  {
    var all := history + [last];
    assert all[|history|] == last;
    assert forall i :: 0 <= i < |history| ==> all[i] == history[i];
  }

  /** The order in which attributions arrive cannot turn a unit full or partial. */
  lemma AttributionIgnoresOrder(a: seq<Attributed>, b: seq<Attributed>, key: string)
    requires forall x :: x in a <==> x in b
    ensures CoveredInFull(a, key) <==> CoveredInFull(b, key)
  {
    FullByMembers(a, key);
    FullByMembers(b, key);
  }

  lemma FullByMembers(a: seq<Attributed>, key: string)
    ensures CoveredInFull(a, key) <==>
      (exists x :: x in a && key in x.keys) && (forall x :: x in a && key in x.keys ==> x.coverage == FullyCovered)
  {
    if EverAttributed(a, key) {
      var i :| 0 <= i < |a| && key in a[i].keys;
      assert a[i] in a;
    }
  }

  // ----- units -----

  /** A changed unit, with what its bounded classification is entitled to say about it. */
  datatype Unit = Unit(key: string, unsupportedFile: bool, languageClass: LanguageClass, absenceEstablished: bool)

  predicate LeftOver(u: Unit, full: set<string>) {
    u.unsupportedFile || (u.key !in full && !u.absenceEstablished)
  }

  predicate CountsUnsupported(u: Unit, full: set<string>) {
    u.unsupportedFile || (u.key !in full && !u.absenceEstablished && u.languageClass in {Unmodelled, BoundedCompiled})
  }

  /** The keys of the units nothing accounts for, in order. */
  function Residual(units: seq<Unit>, full: set<string>): seq<string> {
    if units == [] then []
    else
      var before := Residual(units[..|units| - 1], full);
      var last := units[|units| - 1];
      if LeftOver(last, full) then before + [last.key] else before
  }

  function Unsupporteds(units: seq<Unit>, full: set<string>): nat {
    if units == [] then 0
    else Unsupporteds(units[..|units| - 1], full) + (if CountsUnsupported(units[|units| - 1], full) then 1 else 0)
  }

  function Keys(units: seq<Unit>): seq<string> {
    seq(|units|, i requires 0 <= i < |units| => units[i].key)
  }

  method AccountUnits(units: seq<Unit>, attribution: Attribution)
    returns (unsupportedUnits: nat, remainderUnits: nat, residual: seq<string>, ghost full: set<string>)
    ensures full == (set k | k in attribution.coverage && attribution.coverage[k] == FullyCovered)
    ensures residual == Residual(units, full)
    ensures unsupportedUnits == Unsupporteds(units, full)
    ensures unsupportedUnits + remainderUnits == |residual|
  {
    full := set k | k in attribution.coverage && attribution.coverage[k] == FullyCovered;
    unsupportedUnits, remainderUnits, residual := 0, 0, [];
    for i := 0 to |units|
      invariant residual == Residual(units[..i], full)
      invariant unsupportedUnits == Unsupporteds(units[..i], full)
      invariant unsupportedUnits + remainderUnits == |residual|
    {
      var unit := units[i];
      assert units[..i + 1][..i] == units[..i];
      var concernCovered := attribution.IsFull(unit.key);
      if unit.unsupportedFile {
        unsupportedUnits := unsupportedUnits + 1;
        residual := residual + [unit.key];
      } else if !concernCovered && !unit.absenceEstablished {
        if unit.languageClass == Unmodelled || unit.languageClass == BoundedCompiled {
          unsupportedUnits := unsupportedUnits + 1;
        } else {
          remainderUnits := remainderUnits + 1;
        }
        residual := residual + [unit.key];
      }
    }
    assert units[..|units|] == units;
  }

  /** Nothing is left over exactly when every unit is readable and accounted for. */
  lemma {:induction false} ResidualEmptyIff(units: seq<Unit>, full: set<string>)
    ensures Residual(units, full) == [] <==> forall i :: 0 <= i < |units| ==> !LeftOver(units[i], full)
    decreases units
  {
    hide LeftOver;
    if units != [] {
      var front := units[..|units| - 1];
      ResidualEmptyIff(front, full);
      assert forall i :: 0 <= i < |front| ==> front[i] == units[i];
    }
  }

  /** Where the units left over are, in order. */
  function LeftOvers(units: seq<Unit>, full: set<string>): (at: seq<nat>)
    ensures forall k :: 0 <= k < |at| ==> at[k] < |units|
  {
    if units == [] then []
    else
      var before := LeftOvers(units[..|units| - 1], full);
      if LeftOver(units[|units| - 1], full) then before + [|units| - 1] else before
  }

  /** The residual list names exactly the units left over, one entry for each, in their order. */
  lemma {:induction false} ResidualNames(units: seq<Unit>, full: set<string>)
    ensures var at, residual := LeftOvers(units, full), Residual(units, full);
      && |residual| == |at| && (forall k :: 0 <= k < |at| ==> residual[k] == units[at[k]].key)
      && (forall j, k :: 0 <= j < k < |at| ==> at[j] < at[k])
      && (forall i :: 0 <= i < |units| ==> (i in at <==> LeftOver(units[i], full)))
    decreases units
  {
    hide LeftOver;
    if units != [] {
      ResidualNames(units[..|units| - 1], full);
    }
  }

  /** A unit is left over if its file cannot be read, or if nothing covers it in full nor proves absence. */
  lemma LeftOverMeans(u: Unit, full: set<string>)
    ensures !LeftOver(u, full) <==> !u.unsupportedFile && (u.key in full || u.absenceEstablished)
    ensures LeftOver(u, full) ==>
      (CountsUnsupported(u, full) <==>
          u.unsupportedFile || u.languageClass == Unmodelled || u.languageClass == BoundedCompiled)
    ensures CountsUnsupported(u, full) ==> LeftOver(u, full)
  {
  }

  /** The unsupported units counted are exactly those. */
  lemma {:induction false} UnsupportedsAre(units: seq<Unit>, full: set<string>)
    ensures Unsupporteds(units, full) == |set i | 0 <= i < |units| && CountsUnsupported(units[i], full)|
    decreases units
  {
    hide CountsUnsupported;
    if units != [] {
      var n, front := |units| - 1, units[..|units| - 1];
      UnsupportedsAre(front, full);
      var before := set i | 0 <= i < |front| && CountsUnsupported(front[i], full);
      var all := set i | 0 <= i < |units| && CountsUnsupported(units[i], full);
      assert all == before + (if CountsUnsupported(units[n], full) then {n} else {});
    }
  }

  // ----- raw atoms -----

  datatype Disposition = Analyzed | UnsupportedAtom | UnclassifiedResidual | ProvenIrrelevant

  function Count(atoms: seq<Disposition>, d: Disposition): nat {
    if atoms == [] then 0 else Count(atoms[..|atoms| - 1], d) + (if atoms[|atoms| - 1] == d then 1 else 0)
  }

  /** The four dispositions split the raw atoms, each counted once. */
  lemma {:induction false} DispositionsSplit(atoms: seq<Disposition>)
    ensures Count(atoms, Analyzed) + Count(atoms, UnsupportedAtom) + Count(atoms, UnclassifiedResidual) +
            Count(atoms, ProvenIrrelevant) == |atoms|
    decreases atoms
  {
    if atoms != [] {
      DispositionsSplit(atoms[..|atoms| - 1]);
    }
  }

  // ----- the accounting and its conclusion -----

  datatype Accounting = Accounting(
    identities: seq<string>, unsupportedUnits: nat, remainderUnits: nat, residual: seq<string>,
    unsupportedAtoms: nat, unclassifiedAtoms: nat, complete: bool)

  function Account(units: seq<Unit>, full: set<string>, atoms: seq<Disposition>): (a: Accounting)
    requires Unsupporteds(units, full) <= |Residual(units, full)|
  {
    var unsupported := Unsupporteds(units, full);
    var remainder := |Residual(units, full)| - unsupported;
    var unsupportedAtoms := Count(atoms, UnsupportedAtom);
    var unclassified := Count(atoms, UnclassifiedResidual);
    var emptyScopeProven := units == [] && (atoms == [] || Count(atoms, ProvenIrrelevant) == |atoms|);
    Accounting(Keys(units), unsupported, remainder, Residual(units, full), unsupportedAtoms, unclassified,
      unsupported == 0 && remainder == 0 && unsupportedAtoms == 0 && unclassified == 0 &&
          (units != [] || emptyScopeProven))
  }

  lemma {:induction false} UnsupportedAreResidual(units: seq<Unit>, full: set<string>)
    ensures Unsupporteds(units, full) <= |Residual(units, full)|
    decreases units
  {
    if units != [] {
      UnsupportedAreResidual(units[..|units| - 1], full);
    }
  }

  /**
   * Complete means: every unit is readable and either covered in full or proven absent, every raw
   * atom is analyzed or proven irrelevant, and where there is no unit at all nothing was analyzed.
   */
  lemma CompleteIff(units: seq<Unit>, full: set<string>, atoms: seq<Disposition>)
    requires Unsupporteds(units, full) <= |Residual(units, full)|
    ensures Account(units, full, atoms).complete <==>
      && (forall i :: 0 <= i < |units| ==> !LeftOver(units[i], full))
      && (forall i :: 0 <= i < |atoms| ==> atoms[i] == Analyzed || atoms[i] == ProvenIrrelevant)
      && (units == [] ==> forall i :: 0 <= i < |atoms| ==> atoms[i] == ProvenIrrelevant)
  {
    hide LeftOver;
    ResidualEmptyIff(units, full);
    DispositionsSplit(atoms);
    CountZero(atoms, UnsupportedAtom);
    CountZero(atoms, UnclassifiedResidual);
    CountZero(atoms, Analyzed);
  }

  lemma {:induction false} CountZero(atoms: seq<Disposition>, d: Disposition)
    ensures Count(atoms, d) == 0 <==> forall i :: 0 <= i < |atoms| ==> atoms[i] != d
    decreases atoms
  {
    if atoms != [] {
      var front := atoms[..|atoms| - 1];
      CountZero(front, d);
      assert forall i :: 0 <= i < |front| ==> front[i] == atoms[i];
    }
  }

  // ----- the evidence discovery produces about itself -----

  datatype Conclusion = ConcernsFound | AbsenceEstablished | DiscoveryIncomplete

  function Conclude(a: Accounting, concernsFound: bool): Conclusion {
    if !a.complete then DiscoveryIncomplete else if concernsFound then ConcernsFound else AbsenceEstablished
  }

  function ConclusionCompleteness(c: Conclusion): Completeness {
    match c
    case ConcernsFound => CompletenessNotApplicable
    case AbsenceEstablished => Complete
    case DiscoveryIncomplete => Incomplete
  }

  function ConclusionCoverage(a: Accounting, c: Conclusion): Coverage {
    if c == DiscoveryIncomplete then (if a.unsupportedUnits > 0 || a.unsupportedAtoms > 0 then Unsupported else Partial)
    else if a.identities == [] then NotApplicable
    else Full
  }

  function AsDiscovery(a: Accounting): Discovery {
    Discovery(|a.identities|, a.identities, a.complete)
  }

  function DiscoveryAdequacyEvidence(a: Accounting, concernsFound: bool, touched: seq<LanguageClass>,
      binding: Binding): QuestionRecord {
    var conclusion := Conclude(a, concernsFound);
    QuestionRecord(
      ScopeAdequacyQuestion, DiscoveryQuestion,
      if conclusion == ConcernsFound then ConcernWitness else BoundedChangeClassifier,
      if conclusion == DiscoveryIncomplete then NotChecked else Passed,
      if conclusion == ConcernsFound then PositiveFinding else NegativeAbsence,
      ConclusionCompleteness(conclusion), ConclusionCoverage(a, conclusion), Structural, touched,
      Some(Scope(|a.identities|, |a.identities| - a.unsupportedUnits - a.remainderUnits,
          a.unsupportedUnits + a.remainderUnits, Some(a.identities))),
      binding)
  }

  /** The record discovery derives about its own scope. */
  method DeriveDiscoveryAdequacyEvidence(a: Accounting, concerns: nat, touched: seq<LanguageClass>, binding: Binding)
      returns (record: QuestionRecord)
    ensures record == DiscoveryAdequacyEvidence(a, concerns > 0, touched, binding)
  {
    var concernsFound := a.complete && concerns > 0;
    var absenceEstablished := a.complete && concerns == 0;
    var completeness := if concernsFound then CompletenessNotApplicable
      else if absenceEstablished then Complete else Incomplete;
    var coverage := NotApplicable;
    if !a.complete {
      coverage := Partial;
      if a.unsupportedUnits > 0 || a.unsupportedAtoms > 0 {
        coverage := Unsupported;
      }
    } else if |a.identities| > 0 {
      coverage := Full;
    }
    record := QuestionRecord(
      ScopeAdequacyQuestion, DiscoveryQuestion,
      if concernsFound then ConcernWitness else BoundedChangeClassifier,
      if concernsFound || absenceEstablished then Passed else NotChecked,
      if concernsFound then PositiveFinding else NegativeAbsence,
      completeness, coverage, Structural, touched,
      Some(Scope(|a.identities|, |a.identities| - a.unsupportedUnits - a.remainderUnits,
                 a.unsupportedUnits + a.remainderUnits, Some(a.identities))),
      binding);
  }

  /** The languages in which the bounded classifier's silence is full evidence. */
  predicate FullySilent(touched: seq<LanguageClass>) {
    forall c :: c in touched ==> c in {TsJs, Python, BoundedCompiled}
  }

  lemma ClassifierSilence(touched: seq<LanguageClass>)
    ensures var verdict := VerdictFor(BoundedChangeClassifier, ScopeAdequacyQuestion, touched, NegativeAbsence);
            verdict.coverage in {Full, NotApplicable} <==> FullySilent(touched)
  {
    var row := Row(Full, Full, Partial, Unsupported, Full, Unsupported, Unsupported);
    assert VerdictFor(BoundedChangeClassifier, ScopeAdequacyQuestion, touched, NegativeAbsence).coverage ==
      if touched == [] then NotApplicable else Worst(row, touched);
    if touched != [] {
      var worst := Worst(row, touched);
      assert touched[0] in touched && row.At(touched[0]) != NotApplicable;
    }
  }

  /**
   * Fed only its own record, the discovery question resolves exactly when the accounting is complete
   * and either a concern was found or every touched language is one whose silence counts in full.
   */
  lemma OwnEvidenceResolvesIff(a: Accounting, concernsFound: bool, touched: seq<LanguageClass>, binding: Binding)
    requires a.complete ==> a.unsupportedUnits == 0 && a.remainderUnits == 0
    ensures var own := [DiscoveryAdequacyEvidence(a, concernsFound, touched, binding)];
      var q := QuestionFinding(own, DiscoveryQuestion, CandidateEvidence, Some(AsDiscovery(a)), binding);
      IsResolved(q.status) <==> a.complete && (concernsFound || FullySilent(touched))
  {
    hide QuestionFinding, VerdictFor;
    var r := DiscoveryAdequacyEvidence(a, concernsFound, touched, binding);
    QuestionResolvedIff([r], DiscoveryQuestion, CandidateEvidence, Some(AsDiscovery(a)), binding);
    OwnAnswers(a, concernsFound, touched, binding);
    assert r in [r];
  }

  lemma OwnAnswers(a: Accounting, concernsFound: bool, touched: seq<LanguageClass>, binding: Binding)
    requires a.complete ==> a.unsupportedUnits == 0 && a.remainderUnits == 0
    ensures var r := DiscoveryAdequacyEvidence(a, concernsFound, touched, binding);
      && !FlaggingAnswer(r, DiscoveryQuestion, binding)
      && (AbsenceAnswer(r, DiscoveryQuestion, Some(AsDiscovery(a)), binding) <==>
         a.complete && !concernsFound && FullySilent(touched))
      && (WitnessAnswer(r, DiscoveryQuestion, Some(AsDiscovery(a)), binding) <==> a.complete && concernsFound)
  {
    ClassifierSilence(touched);
    ClassifierClaims();
  }

  lemma ClassifierClaims()
    ensures SupportsClaim(ConcernWitness, ScopeAdequacyQuestion, PositiveFinding)
    ensures SupportsClaim(BoundedChangeClassifier, ScopeAdequacyQuestion, NegativeAbsence)
  {
    assert Establishments(ConcernWitness)[0].target == ScopeAdequacyQuestion;
    assert Establishments(BoundedChangeClassifier)[0].target == ScopeAdequacyQuestion;
  }
}
