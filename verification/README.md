# Verified model of the agent control plane

The repository supervises coding agents: it builds their context, runs them, verifies what they
produce, repairs and retries within bounds, and decides from evidence whether a candidate may be
promoted. This project restates the parts of it that are algorithms or protocols in Dafny and proves
what they promise. Each imperative part of the source is an imperative method or class here, proved
against a specification; the results below are lemmas about those specifications, or contracts and
class invariants that every call keeps.

`dafny verify dfyconfig.toml` checks everything.

## What is modelled

- **Import cycles** (`ImportGraph`, `SccInvariant`, `ImportCycles`). Tarjan's search with its global
  index, low links, stack and recursive closure. Its components are exactly the strongly connected
  components of the endpoints of the imports, each file in one; the defaults written for missing map
  entries are never used; the cycle count is zero exactly when no file imports its way back to
  itself.
- **Scalar expressions** (`ScalarGrammar`, `ScalarRecognizer`, `ScalarPurity`, `ScalarTokenizer`,
  `ScalarNumbers`, `ScalarLayout`, `ScalarText`, `ScalarTrees`, `ScalarAccepted`, `QuotedRegions`,
  `LocalStatements`). The closed-vocabulary tokenizer, the recursive-descent recognizer and the
  quoted-region scanner. For a richer language with assignments, calls, updates, indexing and
  property reads, laid out with any white space, text is accepted exactly when its expression is
  effect free, reads properties off names only, names no reserved word, holds no string with an
  expansion marker and is written without merging marks; evaluating it then leaves the store as it
  was. White space is needed only between two words or numbers and between a word and a string, so
  `--i`, `x+=y` and `f()` are covered as they are usually written. Between a word and a string the
  space is essential: letters directly before a quote become part of the string, and a word operator
  so written is accepted exactly when it is not `typeof` and the string holds none of `%`, `$` and
  `{`. The statement splitter cuts at every top-level semicolon, at every line end where nothing is
  open and the text wants no more, at the end, and nowhere else.
- **Trust kernel** (`Adequacy`, `EvidenceFold`, `ConcernStatus`, `RecordAnswers`,
  `QuestionProducers`, `Obligations`, `ObligationFields`, `ConcernProducers`,
  `DiscoveryAccounting`). The capability registry and the fold over evidence. For every concern and
  question an exact condition on the set of records says when it is resolved; from it follow order
  independence, independence from records of other candidates, and what a promotable candidate has
  had established. Which unresolved status a question reports does depend on the order of its
  evidence, unless the records that tie for the lowest rank agree: an exact condition says when.
- **Emergency stop** (`EmergencyStop`, `EmergencyRuns`). Create, resume, cancel, execute and stop as
  processes that interleave at their awaits. A stop holds if and only if no read of the durable
  control row is in flight when it lands; when it returns, every run still held by a call has been
  cancelled or has reached a final state; and starting a run keeps accepted cancellations if and
  only if no call in flight still owns an activation of it. The resume's state check does not see an
  execution that has stored PAUSED and is still closing: that execution then removes the new entry,
  and a cancelled run can complete. A list of steps from the empty service shows it.
- **Execution loop** (`ExecuteLoop`). Verify, repair, recover and restart under arbitrary answers of
  agent, verifier, circuit and operator. The log a run leaves is lawful: repairs only after an
  unverified check that got no worse, on a changed candidate and with budget; recoveries only with
  reserve; nothing after a verified check. The numbers of sessions, of checks and of calls to the
  verifier are bounded. A policy restart asks for no budget, so a hard reserve does not gate it:
  under a hard limit a session started with its share spent is always a restart, and a concrete run
  has one.
- **Context pages** (`ContextPages`, `WorkingSet`). The bounded page cache: its accounts and bounds
  hold after every request; a request changes only the page under its key; a failed revalidation
  removes exactly that page. Only the character budget evicts on a rebase, so a smaller page-count
  limit is not enforced by it: the contract says exactly when all bounds hold.
- **Git patches** (`DiffLines`, `DiffShapes`, `DiffParse`, `DiffRoundTrip`, `DiffMetadata`). Parsing
  a rendered list of edits gives the edits back exactly when no changed line, sign included, looks
  like a path header; otherwise text is lost. For every input whatever a changed hunk line points at
  its own text.
- **Mission graph** (`MissionTree`), **knowledge** (`Knowledge`), **execution mode** (`ModeControl`)
  and **provider circuit** (`CircuitBreaker`). Gates that one pass settles; claims of which no two
  current ones disagree; a bound on mode changes and a STRICT mode that only lasts while the
  stability window is clean; and a breaker that is wedged exactly when a probe is in flight.

## Where documentation and code differ

The model follows the code in each case.

- `src/domain/health.ts:27` speaks of components of more than one file; the code also counts a single
  file that imports itself (`ImportCycles.CyclicMeansCycle`).
- `src/domain/assurance-obligation.ts:629-632` says a depth preference alone manufactures no material
  blocker; the two question checks have a capability, so every question obligation is material
  (`EvidenceFold.QuestionIsMaterial`).
- `src/domain/assurance-obligation.ts:1093-1103` asks for stronger evidence at greater depth, but only
  of checks that never reach that branch (`Obligations.DepthNeverBitesHere`).
- `src/domain/local-code-semantics.ts:872-887` admits `==` and `===` as comparisons, but looks one
  character ahead of any mark: a `)` written directly against them is rejected, as two plus or minus
  signs are (`ScalarAccepted.ProvenIff`).
- A report state NOT_REQUIRED resolves a required check (`Obligations.PlanCheckResolvedIff`).
- `src/domain/circuit-breaker.ts:6-13` requires every consumed probe to be ended; the cancelled path
  at `src/application/run-service.ts:2221` does not (`CircuitBreaker.CancelledProbe`).

## Model

| member | source | states |
|---|---|---|
| ImportGraph.CycleThroughImport | src/domain/health.ts:458-463 | a file lies on a cycle exactly when one of its imports leads back to it |
| SccInvariant.ScanFacts | src/domain/health.ts:438-448 | while a file is scanned its index, its low link and its place on the stack exist, so the `??` defaults at these reads are never taken |
| SccInvariant.SegmentIsScc | src/domain/health.ts:444-453 | when low link and index agree, the stack above the file is exactly the set of files mutually reachable with it |
| SccInvariant.Settle | src/domain/health.ts:444-453 | emitting that segment keeps the whole search invariant for the callers still on the recursion |
| ImportCycles.SccSearch.constructor | src/domain/health.ts:418-429 | the adjacency lists are the import edges, in order and with repetitions |
| ImportCycles.SccSearch.PopComponent | src/domain/health.ts:445-452 | the do-while loop moves exactly the stack down to the file into one component, reversed |
| ImportCycles.SccSearch.StrongConnect | src/domain/health.ts:430-454 | the recursion terminates and leaves the file either settled in its component or on the stack with a low link that an older file explains |
| ImportCycles.SccSearch.FindComponents | src/domain/health.ts:455-457 | the components are exactly the strongly connected components of all import endpoints |
| ImportCycles.PartitionMeaning | src/domain/health.ts:430-457 | every endpoint is in one component, and two share it exactly when they reach each other |
| ImportCycles.CyclicMeansCycle | src/domain/health.ts:458-463 | the cycle test on a component holds exactly when its files lie on a cycle, a self import included |
| ImportCycles.CyclicSetsAreClasses | src/domain/health.ts:458-463 | the components kept are exactly the mutual-reachability classes that hold a cycle |
| ImportCycles.CyclesCounted | src/domain/health.ts:488-489 | the count is the number of distinct cyclic classes and the largest length is the size of the largest |
| ImportCycles.EdgesAreImports | src/domain/health.ts:416-416 | the edges searched are exactly the relations of kind import, in both directions |
| ImportCycles.CirclesAreClasses | src/domain/health.ts:416-463 | circles of relations are the cyclic components of the edges searched |
| ImportCycles.NoCyclesIffAcyclic | src/domain/health.ts:488-489 | the count is zero exactly when no file imports its way back to itself along import relations |
| ImportCycles.DeriveCycleMetrics | src/domain/health.ts:416-489 | for every list of relations the count is the number of groups of files that import one another in a circle along relations of kind import, and the largest size is that of the largest group |
| ScalarGrammar.TernarySound | src/domain/local-code-semantics.ts:1007-1015 | whatever the reader consumes is the printing of a syntax tree |
| ScalarGrammar.TernaryComplete | src/domain/local-code-semantics.ts:1007-1015 | the printing of every syntax tree is consumed, up to a token that cannot continue it |
| ScalarGrammar.AcceptsIffDerivable | src/domain/local-code-semantics.ts:947-1021 | a token list is accepted if and only if it derives from the ternary, binary, unary and primary grammar |
| ScalarRecognizer.Parser.constructor | src/domain/local-code-semantics.ts:947-954 | the cursor starts at the first token |
| ScalarRecognizer.Parser.ParsePrimary | src/domain/local-code-semantics.ts:955-986 | the cursor moves past exactly one primary with its observations, or the call fails |
| ScalarRecognizer.Parser.ParseUnary | src/domain/local-code-semantics.ts:988-995 | the cursor moves past exactly one unary expression |
| ScalarRecognizer.Parser.ParseBinary | src/domain/local-code-semantics.ts:997-1005 | the cursor moves past exactly one chain of binary operators |
| ScalarRecognizer.Parser.ParseTernary | src/domain/local-code-semantics.ts:1007-1015 | the cursor moves past exactly one expression, and the mutual recursion terminates on the cursor |
| ScalarRecognizer.ParseEffectFreeScalar | src/domain/local-code-semantics.ts:947-1021 | the recognizer answers true exactly for derivable token lists |
| ScalarPurity.AcceptedIsSane | src/domain/local-code-semantics.ts:947-1021 | in an accepted list no operand is followed by another operand or by an opening parenthesis, and every dot reads an observed property |
| ScalarPurity.AcceptedIsEffectFree | src/domain/local-code-semantics.ts:840-1021 | an expression of the richer language whose lexemes are tokenized and accepted holds no assignment, update, call, index, foreign property read, effect word or regular expression |
| ScalarPurity.EffectFreeKeepsStore | src/domain/local-code-semantics.ts:1028-1034 | evaluating an effect-free expression leaves the store unchanged, in every world |
| ScalarPurity.AcceptedKeepsStore | src/domain/local-code-semantics.ts:1028-1034 | evaluating an accepted expression leaves the store unchanged |
| ScalarTokenizer.TokenizeScalarExpression | src/domain/local-code-semantics.ts:840-909 | the scanning loop yields the tokens of the closed vocabulary, or nothing where the source gives up |
| ScalarText.IsProvenEffectFreeScalarExpression | src/domain/local-code-semantics.ts:1028-1034 | decides the trimmed text by tokenizing and recognizing it |
| ScalarText.AcceptedTokens | src/domain/local-code-semantics.ts:840-909 | in any layout, accepted text is tokenized to exactly the lexemes of the expression: longest match, assignment and update marks, division and regular expressions included |
| ScalarText.ProvenMeansEffectFree | src/domain/local-code-semantics.ts:1028-1034 | an expression whose text, in any layout, is proven effect free is effect free |
| ScalarText.ProvenKeepsStore | src/domain/local-code-semantics.ts:1028-1034 | evaluating an expression whose text, in any layout, is proven leaves the store unchanged |
| ScalarText.TightTextsRejected | src/domain/local-code-semantics.ts:786-791 | an update, an assignment and a call written without white space are instances, and rejected |
| ScalarLayout.RichSettled | src/domain/local-code-semantics.ts:892-901 | in every expression a regular expression stands where no division can, and no mark runs into what follows it |
| ScalarLayout.LexemeStops | src/domain/local-code-semantics.ts:832-833 | in any layout a number, word, string or mark is over where the next lexeme or the white space begins |
| ScalarText.LettersJoinTheString | src/domain/local-code-semantics.ts:382-387 | letters directly before a string are the prefix of its one region, whatever the letters and the string |
| ScalarText.LettersAcceptedIff | src/domain/local-code-semantics.ts:1028-1034 | letters written against a string are accepted with it exactly when they hold no f and the string no expansion marker |
| ScalarText.UnspacedWordAcceptedIff | src/domain/local-code-semantics.ts:827-829 | a word operator written against a string is accepted exactly when it is not typeof and the string holds no expansion marker; this layout is the one the theorems exclude |
| ScalarTrees.AcceptedIff | src/domain/local-code-semantics.ts:947-1021 | of the trees of the richer language exactly those are accepted that are effect free and read every property off a name |
| ScalarAccepted.ProvenIff | src/domain/local-code-semantics.ts:1028-1034 | in any layout text is proven exactly when its expression is effect free, reads properties off names only, names no reserved word, holds no string with an expansion marker and is written without merging marks |
| ScalarAccepted.TreeProvenIff | src/domain/local-code-semantics.ts:840-1034 | every tree of the grammar, however spelled and laid out, is proven as text exactly when its strings are inert and no marks merge |
| ScalarAccepted.Tokenized | src/domain/local-code-semantics.ts:840-909 | text of the vocabulary without merging marks is tokenized lexeme by lexeme, longest match first |
| ScalarAccepted.MarksOfTheGrammar | src/domain/local-code-semantics.ts:792-823 | the punctuation listed is exactly that of the grammar |
| ScalarNumbers.NumTextIff | src/domain/local-code-semantics.ts:832-833 | a text is read to its end as one number exactly when it is a numeric literal: radix or decimal digits in groups, fraction, exponent, suffix |
| QuotedRegions.InspectQuotedRegions | src/domain/local-code-semantics.ts:398-466 | the scanning loop finds the regions of the character-by-character specification |
| QuotedRegions.RegionsOrderedAndComplete | src/domain/local-code-semantics.ts:398-466 | regions are in bounds, ordered and disjoint with their prefixes, delimited by their quotes, and in balanced text every quote is in one |
| QuotedRegions.KeepAll | src/domain/local-code-semantics.ts:468-483 | stripping keeps a stretch outside the plain regions as it is |
| QuotedRegions.KeepNone | src/domain/local-code-semantics.ts:468-483 | stripping deletes a stretch of plain regions entirely |
| QuotedRegions.StripProvenPlainQuotedRegions | src/domain/local-code-semantics.ts:468-483 | deletes exactly the characters of non-interpolating regions, and nothing from unbalanced text |
| LocalStatements.Flush | src/domain/local-code-semantics.ts:34-43 | the buffer becomes one trimmed statement, and an empty one none |
| LocalStatements.ContinuesIff | src/domain/local-code-semantics.ts:75-75 | the text wants more exactly when, white space aside, it ends in one of the listed operators |
| LocalStatements.SplitLocalStatements | src/domain/local-code-semantics.ts:45-84 | up to white space the statements are the lines; a cut stands at every top-level semicolon, at a line end exactly when nothing is open there and the pending text is not blank and wants no more, at the end of the text when something is pending, and nowhere else |
| Adequacy.CapabilityCoverageFor | src/domain/capability-adequacy.ts:478-515 | the loop over languages gives the weakest coverage of the registry row for the target and claim |
| Adequacy.WorstIsAntitone | src/domain/capability-adequacy.ts:478-515 | touching more languages never raises the coverage |
| Adequacy.WorstIgnoresOrder | src/domain/capability-adequacy.ts:478-515 | the order and repetition of languages do not matter |
| Adequacy.CapabilityNegativeAbsenceCeiling | src/domain/capability-adequacy.ts:537-555 | unsupported if any establishment lacks negative authority, else the weakest negative coverage over all of them |
| Adequacy.NothingEstablishes | src/domain/capability-adequacy.ts:213-455 | no capability establishes authorization behaviour, subprocess execution or operational artefacts |
| Adequacy.SecurityIsStructural | src/domain/capability-adequacy.ts:213-455 | no capability speaks to a typed security concern with more than structural strength |
| Adequacy.PositiveOnlyNeverNegative | src/domain/capability-adequacy.ts:213-455 | the witness, the discovery scan and the vulnerability scan carry no negative authority |
| EvidenceFold.QuestionKeyIsLexicographic | src/domain/assurance-obligation.ts:579-585 | question evidence is ordered by adequacy, then strength, coverage and producer |
| EvidenceFold.ConcernKeyIsLexicographic | src/domain/assurance-obligation.ts:827-836 | concern evidence is ordered by adequacy, then risk of outcome, strength, coverage and producer |
| EvidenceFold.ConcernResolvedIff | src/domain/assurance-obligation.ts:769-863 | a concern is resolved exactly when some bound adequate record passes it and none of the supported ones flags it |
| EvidenceFold.ConcernFindingIgnoresOthers | src/domain/assurance-obligation.ts:772-786 | only the set of bound matching records counts: not their order, nor records of other candidates |
| EvidenceFold.CriticalSecurityStaysOpen | src/domain/assurance-obligation.ts:395-403 | at CRITICAL depth no evidence resolves a typed security concern |
| EvidenceFold.UnestablishableStaysOpen | src/domain/assurance-obligation.ts:740-767 | the three concerns without capability stay NOT_CHECKED whatever the evidence |
| EvidenceFold.FlaggedConcernStaysOpen | src/domain/assurance-obligation.ts:837-863 | a bound, supported WARN or FAIL keeps the concern open whatever else is added |
| EvidenceFold.FailReportedIff | src/domain/assurance-obligation.ts:837-854 | when a FAIL rather than a WARN is the status reported |
| ConcernStatus.ConcernStatusIs | src/domain/assurance-obligation.ts:837-863 | the status reported for a concern in every case: FAIL or WARN of its flags, PASS, or what the first evaluation or the coverage of the first capability leaves open |
| ConcernStatus.NameRankIsOrder | src/domain/assurance-obligation.ts:827-836 | capabilities that tie are ordered as their identifiers |
| EvidenceFold.QuestionResolvedIff | src/domain/assurance-obligation.ts:499-627 | a question is resolved exactly when nothing flags it and an adequate absence, or with complete accounting a witness, answers it |
| EvidenceFold.QuestionResolutionIgnoresOthers | src/domain/assurance-obligation.ts:507-509 | resolution depends only on the set of records bound to this candidate and digest |
| EvidenceFold.FlaggedQuestionStaysOpen | src/domain/assurance-obligation.ts:586-639 | a bound, supported WARN or FAIL leaves the question material and unresolved |
| EvidenceFold.IncompleteDiscoveryNeedsNamedScope | src/domain/assurance-obligation.ts:594-617 | over an incomplete discovery the adequacy question resolves only through an absence record naming the same units |
| RecordAnswers.QuestionResolvedByFields | src/domain/assurance-obligation.ts:513-617 | a question is resolved exactly on stated fields of the bound records and rows of the registry: outcome, claim, completeness, coverage, strength against the one its kind asks, and for the scope question the units named |
| RecordAnswers.ExecutionIsMeasured | src/domain/assurance-obligation.ts:533-535 | scenario execution is answered only by a measured record of the fault scenario execution |
| RecordAnswers.CleanRecordIff | src/domain/assurance-obligation.ts:787-863 | a record settles a concern exactly on stated fields and registry rows, with the strength its depth asks for |
| QuestionProducers.DeriveQuestionEvidence | src/domain/assurance-question-evidence.ts:23-95 | one record for the security question and, with a posture, one for the resilience question |
| QuestionProducers.SecurityResolvedIff | src/domain/assurance-question-evidence.ts:30-64 | on discovery's own record the security question resolves exactly when a security concern was found, or nothing was, the accounting is complete and only fully modelled languages were touched |
| QuestionProducers.ResilienceResolvedIff | src/domain/assurance-question-evidence.ts:66-95 | on the posture's record the resilience question resolves exactly when it passed with full coverage over languages the relevance scan, or the executed scenarios, model in full |
| QuestionProducers.NoPostureStaysOpen | src/domain/assurance-question-evidence.ts:66-66 | without a posture the resilience question stays open |
| EvidenceFold.StatusOrderFreeIff | src/domain/assurance-obligation.ts:579-627 | the reported status is the same under every order of the evidence exactly when the records tied for the least key agree: flags on their outcome, and without flags and answers on having been checked |
| EvidenceFold.AgreeingStatusIgnoresOthers | src/domain/assurance-obligation.ts:579-627 | with agreeing ties the status depends only on the set of records bound to this candidate and digest |
| EvidenceFold.QuestionStatusDependsOnOrder | src/domain/assurance-obligation.ts:586-589 | an instance of disagreeing ties: a FAIL and a WARN of equal rank |
| Obligations.DerivePlanObligations | src/domain/assurance-obligation.ts:974-1153 | the loop over the plan raises one obligation per required check and claims the dimensions it read |
| Obligations.DeriveDimensionObligations | src/domain/assurance-obligation.ts:1155-1191 | the loop over the report raises one for each unclaimed deterministic FAIL |
| Obligations.DeriveConcernObligations | src/domain/assurance-obligation.ts:720-863 | the loop over the grouped concerns raises one for each type |
| Obligations.DeriveAssuranceObligations | src/domain/assurance-obligation.ts:952-1199 | discovery, plan, dimension and concern obligations, in this order |
| Obligations.PlanCheckResolvedIff | src/domain/assurance-obligation.ts:986-1111 | a bucket check is resolved exactly when its named predicate passed under sufficient coverage or the report says not required; never by PASS on partial or unsupported coverage |
| ObligationFields.UnansweredObligation | src/domain/assurance-obligation.ts:989-1042 | a bucket check without a checker the plan accepts is not checked, and material exactly if the candidate raised it |
| ObligationFields.MissingObligation | src/domain/assurance-obligation.ts:1043-1068 | a bucket check whose bucket is missing from the report is not checked and material |
| ObligationFields.ReportedObligation | src/domain/assurance-obligation.ts:1069-1111 | otherwise exactly when each of the seven statuses is reported, from state, coverage and identity of the result |
| ObligationFields.QuestionCheckObligation | src/domain/assurance-obligation.ts:980-988 | the two question checks read the records for their question and nothing of the report |
| ObligationFields.DimensionObligationsAre | src/domain/assurance-obligation.ts:1156-1191 | the report raises exactly one obligation for each failure by rule or measurement that answers no check |
| ObligationFields.ClassesAre | src/domain/assurance-obligation.ts:720-735 | a concern is read over exactly the classes of the files that raised it, each once |
| ObligationFields.UnresolvedAre | src/domain/assurance-obligation.ts:1201-1203 | what is listed as unresolved is material and neither passes nor is waived |
| Obligations.DeterministicFailBlocks | src/domain/assurance-obligation.ts:1164-1190 | a deterministic or measured FAIL in any dimension leaves a material unresolved obligation |
| Obligations.PromotableHasNoDeterministicFail | src/domain/assurance-obligation.ts:1201-1203 | nothing unresolved means no deterministic FAIL |
| Obligations.PromotableChecksEstablished | src/domain/assurance-obligation.ts:1201-1203 | nothing unresolved means every bucket check raised by the candidate was established by the report |
| Obligations.PromotableConcernsSettled | src/domain/assurance-obligation.ts:1201-1203 | nothing unresolved means every concern was passed by adequate evidence, flagged by none and of a type that can be established |
| Obligations.PromotableDiscoveryAccounted | src/domain/assurance-obligation.ts:1201-1203 | nothing unresolved means the changed scope was accounted for, or named whole by an absence record |
| Obligations.ResolutionIgnoresOthers | src/domain/assurance-obligation.ts:480-492 | permuting the evidence, or changing records of other candidates, changes no obligation's identity, materiality or resolution |
| Obligations.PromotionIgnoresOthers | src/domain/assurance-obligation.ts:480-492 | nor whether the candidate can be promoted |
| ConcernProducers.DeriveConcernEvidence | src/domain/concern-evidence.ts:341-509 | the pushes yield the records of the specification, one for each of credential literal, sensitive input flow and environment secret exposure that is raised |
| ConcernProducers.DeriveCredentialEvidence | src/domain/concern-evidence.ts:350-411 | the credential record from the atoms missing, undecided and flagged |
| ConcernProducers.OneRecordEach | src/domain/concern-evidence.ts:341-509 | every record answers a raised concern, carries the binding and comes from its one producer |
| ConcernProducers.CredentialSettledIff | src/domain/concern-evidence.ts:350-411 | exactly when the producer's own record settles a credential concern |
| ConcernProducers.SensitiveInputSettledIff | src/domain/concern-evidence.ts:445-505 | exactly when it settles a sensitive-input concern |
| ConcernProducers.EnvSecretNeverSettled | src/domain/concern-evidence.ts:445-505 | the flow scan never settles an environment-secret concern over changed source |
| DiscoveryAccounting.Attribution.constructor | src/domain/concern-discovery.ts:573-574 | nothing is attributed at first |
| DiscoveryAccounting.Attribution.Attribute | src/domain/concern-discovery.ts:573-585 | the two collections sum up the history of attributions |
| DiscoveryAccounting.FullIffConjoined | src/domain/concern-discovery.ts:573-585 | a unit is FULL exactly when it was attributed at least once and never partially |
| DiscoveryAccounting.AttributionIgnoresOrder | src/domain/concern-discovery.ts:577-579 | the order of attributions does not matter |
| DiscoveryAccounting.AccountUnits | src/domain/concern-discovery.ts:1098-1123 | the residual list is exactly the uncovered units, split into unsupported and remainder |
| DiscoveryAccounting.ResidualNames | src/domain/concern-discovery.ts:1098-1123 | the residual list names exactly the units left over, one entry each, in their order |
| DiscoveryAccounting.UnsupportedsAre | src/domain/concern-discovery.ts:1105-1118 | the unsupported units are those left over whose file or language cannot be read |
| DiscoveryAccounting.LeftOverMeans | src/domain/concern-discovery.ts:1101-1118 | when a unit is left over, and when it counts as unsupported |
| DiscoveryAccounting.ResidualEmptyIff | src/domain/concern-discovery.ts:1101-1123 | nothing is residual exactly when every unit is supported and covered or proven absent |
| DiscoveryAccounting.DispositionsSplit | src/domain/concern-discovery.ts:1124-1136 | the raw atoms split exactly into the four dispositions |
| DiscoveryAccounting.CompleteIff | src/domain/concern-discovery.ts:1137-1145 | accounting is complete exactly when no unit is left over and every atom is analysed or irrelevant, an empty scope only with irrelevant atoms |
| DiscoveryAccounting.DeriveDiscoveryAdequacyEvidence | src/domain/discovery-adequacy.ts:16-57 | the record derived from the accounting: producer, outcome, claim, completeness, coverage and the scope it names |
| DiscoveryAccounting.OwnEvidenceResolvesIff | src/domain/discovery-adequacy.ts:16-57 | fed its own evidence, the adequacy question resolves exactly when accounting is complete and the conclusion is found concerns or silence in fully readable languages |
| EmergencyStop.NextSound | src/application/run-service.ts:1214-1238 | every step of every call keeps the table and the calls in flight consistent |
| EmergencyStop.StopHoldsIffNothingReading | src/application/run-service.ts:1214-1226 | after a stop the flag stays set and no create or resume starts executing, until resumed, exactly when no control read is in flight as it lands |
| EmergencyStop.LateReadUndoesStop | src/application/run-service.ts:4007-4017 | the late read overwrites the flag and its own call goes on to execute |
| EmergencyStop.ExclusiveAfter | src/application/run-service.ts:635-660 | over every interleaving of clean calls each call in flight owns its own entry of the table and no activation is cancelled and completed |
| EmergencyStop.CancelledNeverCompletes | src/application/run-service.ts:843-860 | a run whose cancel was accepted never completes afterwards |
| EmergencyStop.SweepReachesEveryRun | src/application/run-service.ts:1219-1226 | when a stop has returned every run a call still holds was cancelled or has reached a final state; one still executing is cancelled, one on the error path is cancelled or completed or failed |
| EmergencyStop.StartIsExclusive | src/application/run-service.ts:430-445 | the empty service satisfies the conditions of these theorems |
| EmergencyStop.OwnerRemovesEntry | src/application/run-service.ts:2084-2099 | a call that owns an activation ends by removing whatever entry its run has |
| EmergencyStop.OverlapLosesCancel | src/application/run-service.ts:962-969 | starting a run that an earlier call still owns can lose an accepted cancellation |
| EmergencyStop.CancelLostFromStart | src/application/run-service.ts:2084-2099 | steps from the empty service to a cancelled run that completes: a run pauses, is resumed while still closing, loses its entry and is cancelled |
| EmergencyStop.CancelHoldsIffNotBusy | src/application/run-service.ts:1061-1078 | starting a run keeps every accepted cancellation exactly when no call in flight owns an activation of it |
| EmergencyRuns.EnteringRuns | src/application/run-service.ts:635-660 | a call that meets no stop is admitted up to its registration and changes nothing else |
| EmergencyRuns.RunsToEnd | src/application/run-service.ts:1061-1078 | a started call that meets no trouble concludes with its verdict and leaves the table |
| EmergencyRuns.RecoversToEnd | src/application/run-service.ts:2036-2099 | trouble after the verdict pauses the run if a capsule was captured, keeps a stored cancellation, fails it otherwise, and leaves the table |
| EmergencyRuns.RefusedToEnd | src/application/run-service.ts:635-660 | a call that registers under a stop ends cancelled and out of the table |
| EmergencyRuns.RefusedThenStuck | src/application/run-service.ts:635-660 | if its store fails meanwhile the run stays in the table, flagged but not marked |
| EmergencyRuns.CancelToEnd | src/application/run-service.ts:843-860 | an accepted cancel marks the run; if its store fails the flag alone is left |
| ExecuteLoop.Execution.constructor | src/application/run-service.ts:1042-1070 | the books start with the counters and spending that earlier executions of the run left |
| ExecuteLoop.Execution.RunAgentAttempt | src/application/run-service.ts:2270-2433 | the log grows by exactly one session and the charges heard in it; failure, restart and the policy left pending are those of the script of events |
| ExecuteLoop.Execution.RunAgentAttemptWithRecovery | src/application/run-service.ts:2172-2267 | the books and the outcome are those of the specification: a broken session is followed by a recovery exactly while it is retryable, not cancelled, within the limit and funded |
| ExecuteLoop.Execution.RunGovernedSession | src/application/run-service.ts:2105-2158 | a session is followed by a restart exactly while it ends asking for one that is pending; the pending policy is applied at the end |
| ExecuteLoop.Execution.CheckCandidate | src/application/run-service.ts:1492-1714 | throws, settles or goes on to repair exactly on stated conditions on the answers; the environment retry is made exactly when it is useful, unused and the first answer neither threw nor settled |
| ExecuteLoop.Execution.Repairable | src/application/run-service.ts:1715-1761 | a repair starts exactly with attempts left, no worse result, a changed candidate and budget |
| ExecuteLoop.Execution.Execute | src/application/run-service.ts:1459-1833 | terminates in the specified books; completed exactly on a verified last check, failed exactly on another one, paused exactly if interrupted, unfunded, lost in a session or thrown out by the verifier; at most maxRepairs + 2 calls to the verifier and the stated numbers of sessions |
| ExecuteLoop.TriedRan | src/application/run-service.ts:2172-2267 | whatever the answers, a session with recoveries keeps its bounds and is given up only on a refusal or a failure that cannot be recovered |
| ExecuteLoop.ContinuedRan | src/application/run-service.ts:2105-2158 | whatever the answers, a governed session keeps the bounds on restarts and recoveries |
| ExecuteLoop.WholeRuns | src/application/run-service.ts:1459-1833 | every run keeps its bounds, and its last check, last session or budget explains how it ended |
| ExecuteLoop.RetryCompletes | src/application/run-service.ts:1612-1714 | a first check worth retrying and a second answer that verifies make a verified run, whatever the repair policy |
| ExecuteLoop.VerifiedIsLast | src/application/run-service.ts:1558-1573 | nothing is started, charged or checked after a verified check |
| ExecuteLoop.HardReserveIsKept | src/domain/budget.ts:100-130 | under a hard limit no first or repair session starts once the execution share is spent, and no recovery once the recovery share is |
| ExecuteLoop.SpentStartIsRestart | src/domain/budget.ts:100-130 | under a hard limit a session started with its share spent is a policy restart |
| ExecuteLoop.RestartPastReserve | src/application/run-service.ts:2124-2158 | a concrete run under a hard limit that restarts with the execution share spent |
| ExecuteLoop.NextRepairHasNewCandidate | src/application/run-service.ts:1727-1735 | a repair that left the candidate unchanged is not followed by another |
| ExecuteLoop.SessionsAddUp | src/application/run-service.ts:1465-1472 | all sessions are the first, the repairs, the restarts and the recoveries |
| ExecuteLoop.EnforcementIs | src/domain/policy-enforcement.ts:41-57 | which of the three ways a mode change takes |
| ContextPages.ClipKeepsLimitIff | src/application/context-navigation.ts:58-68 | a clipped page keeps its limit exactly when it fits or the marker does; otherwise it is the marker alone |
| ContextPages.ClipKeepsPrefix | src/application/context-navigation.ts:58-68 | before the marker stands the beginning of the content, as long as fits |
| ContextPages.MatchesIff | src/application/context-navigation.ts:26-42 | which operations a handle of each kind allows |
| ContextPages.OthersKept | src/application/context-navigation.ts:281-288 | lists equal without one key hold the same page under every other key |
| WorkingSet.DeduplicatedIds | src/domain/context-navigation.ts:341-344 | the handle list has distinct identifiers |
| WorkingSet.DeduplicatedIs | src/application/context-navigation.ts:286-290 | each identifier keeps the place it first came in, with the handle that came last |
| WorkingSet.AdmittedIs | src/application/context-navigation.ts:242-268 | the admitted page is the clipped answer under its key, truncated if its source cut it or it was clipped here |
| WorkingSet.KeptAllIff | src/domain/context-navigation.ts:392-400 | a rebase evicts nothing exactly when all pages fit on top of the new base |
| WorkingSet.KeptFits | src/domain/context-navigation.ts:392-400 | the pages kept always fit the character budget |
| WorkingSet.MissionPages.constructor | src/domain/context-navigation.ts:330-378 | a valid, reported working set without pages |
| WorkingSet.MissionPages.Evict | src/application/context-navigation.ts:217-224 | removes exactly that page, its characters and its key |
| WorkingSet.MissionPages.Admit | src/application/context-navigation.ts:270-325 | the page becomes resident, or exhausts the budget and changes no page; REUSED exactly when nothing changed |
| WorkingSet.MissionPages.Consult | src/application/context-navigation.ts:186-325 | after a resolution the page under the key is the source's answer clipped; after a refusal there is none; the others are untouched |
| WorkingSet.MissionPages.Expand | src/application/context-navigation.ts:76-326 | keeps every account and bound, counts requests and consultations exactly, decides each outcome by the stated conditions, and leaves exactly the stated ledger entries and exhausted limit |
| WorkingSet.MissionPages.Rebase | src/domain/context-navigation.ts:380-432 | keeps the fitting pages in order; all bounds hold exactly when the request and page limits of the new budget do; nothing changes for the same budget and no larger base |
| DiffLines.SplitJoin | src/domain/diff-parse.ts:136-136 | joining unbroken lines and splitting gives the lines back |
| DiffParse.ParseFilePatches | src/domain/diff-parse.ts:113-219 | the loop with its five variables computes the fold of the line steps |
| DiffParse.ParsedLinesAreIndexed | src/domain/diff-parse.ts:204-216 | for every input, each changed hunk line points at its text in the added or removed lines, with strictly increasing indices |
| DiffShapes.HunkIff | src/domain/diff-parse.ts:193-203 | a line is read as a hunk header exactly when it is one, with or without counts and heading, and gives its two start lines |
| DiffShapes.BinaryIff | src/domain/diff-parse.ts:188-191 | which lines are binary markers |
| DiffShapes.SubmoduleIff | src/domain/diff-parse.ts:153-159 | which lines are submodule indexes |
| DiffShapes.SplitJoinReturns | src/domain/diff-parse.ts:136-136 | a carriage return before a line feed is no part of the line |
| DiffRoundTrip.DiffHeaderRead | src/domain/diff-parse.ts:137-147 | the diff header of a plain path is read back as that path |
| DiffRoundTrip.MinusHeaderRead | src/domain/diff-parse.ts:181-187 | so is the old-file header |
| DiffRoundTrip.PlusHeaderRead | src/domain/diff-parse.ts:164-180 | so is the new-file header |
| DiffRoundTrip.HunkRead | src/domain/diff-parse.ts:193-203 | the hunk header gives both start lines back, whatever the counts |
| DiffRoundTrip.BodyRead | src/domain/diff-parse.ts:204-216 | a line that mimics no path header is read as content |
| DiffRoundTrip.ParseOfRendered | src/domain/diff-parse.ts:113-219 | parsing the text of any list of plain edits gives the list back, with every changed line indexed |
| DiffRoundTrip.RoundTripIff | src/domain/diff-parse.ts:113-219 | edits of plain paths and unbroken lines are read back from their text exactly when no changed line, sign included, reads as a path header |
| DiffRoundTrip.MimicryLosesText | src/domain/diff-parse.ts:164-187 | with such a line the parsed files hold fewer changed texts than the edits |
| DiffMetadata.MetaRead | src/domain/diff-parse.ts:148-163 | every mode, submodule, rename, copy and binary line is read as what it is |
| DiffMetadata.MetaBlockRead | src/domain/diff-parse.ts:120-163 | a block with metadata only gives its file without text, with exactly the reasons of its lines, binary exactly if one says so |
| DiffMetadata.MetaHeadersRead | src/domain/diff-parse.ts:164-187 | path headers after the metadata open no second file and keep the reasons |
| MissionTree.RegatedIsSettled | src/domain/mission-tree.ts:260-265 | one pass over the gates settles every node and a second changes nothing |
| MissionTree.HandoffBlockedReason | src/domain/mission-tree.ts:90-114 | nothing is in the way exactly for a verified node with a merge-eligible verdict of its own run, or with a declared legacy basis and no verdict |
| MissionTree.MissionGraph.constructor | src/domain/mission-tree.ts:119-121 | the graph starts with its root |
| MissionTree.MissionGraph.CanRun | src/domain/mission-tree.ts:237-242 | free exactly when every dependency is known and passes; an unknown one after passing ones is an error |
| MissionTree.MissionGraph.RefreshGates | src/domain/mission-tree.ts:260-265 | in any node order the pass yields the gated graph, or fails exactly on a dangling dependency of a gated node |
| MissionTree.MissionGraph.Split | src/domain/mission-tree.ts:133-142 | succeeds exactly for two or more new children of a known parent whose graph has no dangling gate; the new graph is the old one with the children, gates settled; a failure loses no node and changes none but its gate |
| MissionTree.MissionGraph.Merge | src/domain/mission-tree.ts:144-158 | succeeds exactly for two or more known passing sources and no dangling gate; the merged node collects their outputs once each, the gates are settled and every other node keeps all but its gate |
| MissionTree.MissionGraph.Promote | src/domain/mission-tree.ts:160-168 | only a passing node is promoted, with its earlier outputs and the new one; every other node keeps all but its gate |
| MissionTree.MissionGraph.BindExecution | src/domain/mission-tree.ts:170-193 | a binding is written once and never changed |
| MissionTree.MissionGraph.SetVerification | src/domain/mission-tree.ts:213-235 | evidence of another run is refused; otherwise exactly the verdict is recorded, the gates are settled and every other node keeps all but its gate |
| MissionTree.MissionGraph.Collapse | src/domain/mission-tree.ts:195-211 | the gates stay settled exactly when the parent's dependencies pass |
| Knowledge.StateFromBindings | src/domain/knowledge.ts:179-198 | current only with bindings, all of them found unchanged; stale as soon as one differs |
| Knowledge.ClassifyKnowledgeRecords | src/domain/knowledge.ts:204-222 | the maps and loops mark exactly the contested current claims as conflicted, repeated identifiers included |
| Knowledge.CurrentIff | src/domain/knowledge.ts:204-222 | with distinct identifiers, a record's state is that of its bindings unless another claim contests it |
| Knowledge.ClassificationIgnoresOrder | src/domain/knowledge.ts:204-222 | permuting the records changes no state |
| Knowledge.AddingOnlyConflicts | src/domain/knowledge.ts:204-222 | adding records only turns current ones into conflicted ones |
| Knowledge.CurrentClaimsAgree | src/domain/knowledge.ts:217-220 | no two current compiled records of one subject differ |
| Knowledge.Deduplicate | src/domain/knowledge.ts:252-261 | keeps the first record of each compiled claim and drops only repetitions of it |
| Knowledge.ResolveKnowledgeRecords | src/domain/knowledge.ts:224-277 | the lists are exactly the relevant records in each state, the page an arranged prefix, and a truncated source yields none current |
| Knowledge.RelevantAre | src/domain/knowledge.ts:236-241 | exactly the records of the project and of the identifiers and kinds asked for, in their order |
| Knowledge.PrecedesByParts | src/domain/knowledge.ts:244-249 | records of the asked revision first, then the latest, then by identifier, with no two distinct ones left unordered |
| Knowledge.ExaminedSplits | src/domain/knowledge.ts:263-277 | current candidates, stale, unknown and conflicted add up to those examined |
| Knowledge.PageHasEachClaimOnce | src/domain/knowledge.ts:252-265 | a published page names each compiled claim once, best first |
| ModeControl.UncleanBlocksWindow | src/application/runtime-signal-collector.ts:416-436 | an unclean activity keeps the scope unstable until a whole window of others has followed |
| ModeControl.SlidingStaysStable | src/application/runtime-signal-collector.ts:416-463 | a clean activity within the stabilized targets keeps a stable window stable |
| ModeControl.WaitingAfterWaiting | src/domain/mode-controller.ts:88-92 | two waited changes are far enough apart for the bound |
| ModeControl.ObservedRun.constructor | src/domain/mode-controller.ts:54-56 | a run starts in the mode asked for, or guided |
| ModeControl.ObservedRun.RecordActivity | src/application/runtime-signal-collector.ts:576-595 | an activity is recorded, and undoes a stabilized scope exactly when it expands, adds edges, fails verification or has a new target |
| ModeControl.ObservedRun.Snapshot | src/application/runtime-signal-collector.ts:416-518 | the scope counts as stable exactly under the multi-signal policy |
| ModeControl.ObservedRun.Observe | src/application/runtime-signal-collector.ts:162-170 | in a STRICT of the controller's own, the scope is still stable or an invalidation is on record |
| ModeControl.ObservedRun.DecideOn | src/domain/mode-controller.ts:58-168 | the mode afterwards is the one target of the signals: from STRICT, SOLO_NATIVE exactly if something grew and some growth reaches its limit, GUIDED exactly if something grew and none does; from GUIDED outside the cooldown SOLO_NATIVE exactly on breadth; STRICT exactly on stable mechanical work that is not broad; and the change fits the pace of the cooldown |
| ModeControl.Decide | src/domain/mode-controller.ts:58-168 | the decision computed from the deltas leads to the target of the signals, and is no decision for the current mode |
| ModeControl.TargetIsOne | src/domain/mode-controller.ts:58-168 | any signals lead to exactly one mode |
| ModeControl.ObservedRun.ObserveAndDecide | src/application/run-service.ts:3911-3935 | n observations make at most 2*floor((n-1)/(c+1)) + 2 changes; STRICT is entered only on a clean window and, while the controller holds it, the window stays clean |
| CircuitBreaker.ProviderCircuitBreaker.constructor | src/domain/circuit-breaker.ts:49-53 | no provider has a history |
| CircuitBreaker.ProviderCircuitBreaker.StateOf | src/domain/circuit-breaker.ts:66-76 | the state is that of the provider's whole history of outcomes |
| CircuitBreaker.ProviderCircuitBreaker.CanAttempt | src/domain/circuit-breaker.ts:56-64 | an attempt may start exactly when the circuit is closed, or half open with no probe in flight |
| CircuitBreaker.ProviderCircuitBreaker.BeginAttempt | src/domain/circuit-breaker.ts:79-83 | a probe is in flight exactly if it was begun half open |
| CircuitBreaker.ProviderCircuitBreaker.ReleaseProbe | src/domain/circuit-breaker.ts:91-94 | only the probe is ended |
| CircuitBreaker.ProviderCircuitBreaker.RecordOutcome | src/domain/circuit-breaker.ts:96-115 | failures are those since the last success, and the opening time is the last failure exactly at the threshold |
| CircuitBreaker.ConsumedProbeBlocks | src/domain/circuit-breaker.ts:79-83 | a consumed probe slot refuses every attempt at any time until an outcome or a release |
| CircuitBreaker.WedgedIffProbeInFlight | src/domain/circuit-breaker.ts:56-76 | no later time lets an attempt through exactly when a probe is in flight |
| CircuitBreaker.ObeyedIsNeverWedged | src/domain/circuit-breaker.ts:6-13 | callers that end every probe they begin never wedge the circuit |
| CircuitBreaker.StartAttempt | src/application/run-service.ts:2192-2201 | refuses exactly when the breaker does, and consumes the slot exactly when half open |
| CircuitBreaker.FinishAttempt | src/application/run-service.ts:2202-2234 | each ending makes its own call: a success or a provider failure is recorded as such, another failure releases, a cancellation says nothing; every ending but a cancellation ends the probe |
| CircuitBreaker.RunReviewerSession | src/application/run-service.ts:3557-3595 | the reviewer's session keeps the contract and leaves the circuit unwedged |
| CircuitBreaker.CancelledProbe | src/application/run-service.ts:2219-2221 | a cancelled attempt wedges the circuit exactly when it was the half-open probe |

## Left out

- Worktrees, processes, stores, the HTTP server, the web interface and the agent adapters: the store, the verifier, the agent and the page source are oracles here, answering arbitrarily.
- SHA-256, UUIDs, timestamps and JSON identities: an identifier is an abstract value that stands for what it digests; clocks are parameters.
- The regular expressions for credential names, sinks, risk paths and file candidates, redaction, and the semantic-flow and credential scans: their results are inputs.
- Characters are Unicode scalar values, so lengths in UTF-16 units differ for astral characters; case folding is the ASCII one where the source's vocabulary is ASCII.
- The evaluation semantics of `ScalarPurity` takes operators and the observed properties `length` and `size` to run no user code.
- `localeCompare` on producer names, record identifiers and timestamps is a fixed rank.
- Evidence strings, justifications, labels and events of obligations, ledgers and runs.
- Token measurement of pages, and the shape validation of page requests and knowledge records: a malformed request is an absent one, records are taken as normalized.
- EmergencyStop.SweepReachesEveryRun: assumes that no control read is in flight as the stop lands and that no run is started twice at once; both conditions are shown necessary beside it.
- ExecuteLoop.Execution.Execute: a mode request during a session is one step, although two overlapping ones can both plan a restart between awaits; a run's entry of the active table is taken to stay its own.
- ScalarText.ProvenMeansEffectFree: comments between lexemes are not laid out, and a lexeme of the richer language is taken to be spelled as one token of it.
- WorkingSet.MissionPages.Expand: requests are sequential; the source works on a clone written back after an await, so two at once can lose one.
- DiffParse.ParseFilePatches: what the regular expressions find in a quoted header, and the decoding of escapes in a path, are parameters; hunk numbers are unbounded integers.
- DiffRoundTrip.ParseOfRendered: covers text edits of plain paths; blocks with metadata are rendered and read back in `DiffMetadata`, on their own and before path headers.
- Knowledge.CurrentIff: identifiers are distinct there; the classification itself is specified for repeated ones as well.
- ModeControl.ObservedRun.ObserveAndDecide: the counts of files, edges and modules beyond the observed set, and the agent's own reports, are measured inputs; operator transitions are not counted.
- ModeControl.ObservedRun.Observe: the activity of an event is given as data; extracting candidate files from events and resolving module edges is not modelled.
- MissionTree.MissionGraph.Split: a failing call keeps the children added before the failure, as in the source.
- Control-center projections, prompt and mission compilation, delivery and health-record validation, benchmarks: field checks that would only add easy members.
