/**
 * The adaptive execution mode of a run: the stability window kept by the signal collector, the
 * decisions of the mode controller, and the two together over any sequence of observations.
 */
module ModeControl {
  import opened Wrappers

  datatype Mode = Strict | Guided | SoloNative

  // ------------------------------------------------------------------------- the controller

  datatype Policy = Policy(
    uncertainty: real, dependencyExpansion: nat, crossModuleEdges: nat, touchedModules: nat, verifierFailures: nat,
    cooldown: nat, soloDependencyExpansion: nat, soloCrossModuleEdges: nat, soloTouchedModules: nat,
    soloContextExpansion: nat)

  datatype Signals = Signals(
    uncertainty: real, dependencyExpansion: nat, crossModuleEdges: nat, touchedModules: nat, contextExpansion: nat,
    verifierFailures: nat, invalidations: nat, scopeStabilized: bool, mechanical: bool)

  function Above(now: nat, was: nat): nat { if now > was then now - was else 0 }

  const NOTHING := Signals(0.0, 0, 0, 0, 0, 0, 0, false, false)

  /** What signals are compared with in STRICT; without a transition the touched modules count as they are. */
  function Base(s: Signals, baseline: Option<Signals>): Signals {
    if baseline.Some? then baseline.value else NOTHING.(touchedModules := s.touchedModules)
  }

  predicate UncertaintyGrew(p: Policy, s: Signals, base: Signals) {
    p.uncertainty <= s.uncertainty && base.uncertainty < s.uncertainty
  }

  /** Something grew since the last transition. */
  predicate Grew(p: Policy, s: Signals, baseline: Option<Signals>) {
    var base := Base(s, baseline);
    || s.dependencyExpansion > base.dependencyExpansion
    || s.crossModuleEdges > base.crossModuleEdges
    || s.touchedModules > base.touchedModules
    || s.contextExpansion > base.contextExpansion
    || s.verifierFailures > base.verifierFailures
    || s.invalidations > base.invalidations
    || UncertaintyGrew(p, s, base)
  }

  /** `now` is at least `limit` above `was`; a limit of nothing is always reached. */
  predicate Reached(now: nat, was: nat, limit: nat) {
    limit == 0 || was + limit <= now
  }

  /** Some growth since the last transition reaches its limit. */
  predicate LimitReached(p: Policy, s: Signals, baseline: Option<Signals>) {
    var base := Base(s, baseline);
    || Reached(s.dependencyExpansion, base.dependencyExpansion, p.soloDependencyExpansion)
    || Reached(s.crossModuleEdges, base.crossModuleEdges, p.soloCrossModuleEdges)
    || Reached(s.touchedModules, base.touchedModules, p.soloTouchedModules)
    || Reached(s.contextExpansion, base.contextExpansion, p.soloContextExpansion)
    || Reached(s.verifierFailures, base.verifierFailures, p.verifierFailures)
    || UncertaintyGrew(p, s, base)
  }

  predicate Broad(p: Policy, s: Signals) {
    || p.uncertainty <= s.uncertainty
    || p.dependencyExpansion <= s.dependencyExpansion
    || p.crossModuleEdges <= s.crossModuleEdges
    || p.touchedModules <= s.touchedModules
    || p.verifierFailures <= s.verifierFailures
  }

  predicate InCooldown(p: Policy, sequence: nat, last: Option<nat>) {
    last.Some? && sequence < last.value + p.cooldown
  }

  /** The mode a run should be in from now on: which mode each set of signals leads to. */
  ghost predicate Target(p: Policy, current: Mode, s: Signals, sequence: nat, last: Option<nat>,
      baseline: Option<Signals>, to: Mode) {
    var free := !InCooldown(p, sequence, last);
    var settled := s.scopeStabilized && s.mechanical;
    match current
    case Strict =>
      && (to == SoloNative <==> Grew(p, s, baseline) && LimitReached(p, s, baseline))
      && (to == Guided <==> Grew(p, s, baseline) && !LimitReached(p, s, baseline))
    case Guided =>
      && (to == SoloNative <==> free && Broad(p, s))
      && (to == Strict <==> free && !Broad(p, s) && settled)
    case SoloNative =>
      && (to == Strict <==> free && settled)
      && to != Guided
  }

  /** Any signals lead to exactly one mode. */
  lemma TargetIsOne(p: Policy, current: Mode, s: Signals, sequence: nat, last: Option<nat>,
      baseline: Option<Signals>)
    ensures exists to :: Target(p, current, s, sequence, last, baseline, to)
    ensures forall a, b | Target(p, current, s, sequence, last, baseline, a) ::
              Target(p, current, s, sequence, last, baseline, b) ==> a == b
  {
    hide Grew, LimitReached, Broad, InCooldown;
    var to :=
      if current == Strict then
        if !Grew(p, s, baseline) then Strict else if LimitReached(p, s, baseline) then SoloNative else Guided
      else if InCooldown(p, sequence, last) then current
      else if current == Guided && Broad(p, s) then SoloNative
      else if s.scopeStabilized && s.mechanical then Strict else current;
    assert Target(p, current, s, sequence, last, baseline, to);
  }

  /** The controller's decision, if it asks for another mode. */
  method Decide(p: Policy, current: Mode, s: Signals, sequence: nat, last: Option<nat>, baseline: Option<Signals>)
      returns (decided: Option<Mode>)
    ensures Target(p, current, s, sequence, last, baseline, if decided.Some? then decided.value else current)
    ensures decided != Some(current)
  {
    var base := if baseline.Some? then baseline.value else NOTHING;
    var dependencies := Above(s.dependencyExpansion, base.dependencyExpansion);
    var edges := Above(s.crossModuleEdges, base.crossModuleEdges);
    var modules := if baseline.Some? then Above(s.touchedModules, base.touchedModules) else 0;
    var context := Above(s.contextExpansion, base.contextExpansion);
    var failures := Above(s.verifierFailures, base.verifierFailures);
    var invalidations := Above(s.invalidations, base.invalidations);
    var inCooldown := last.Some? && sequence - last.value < p.cooldown;
    if current == Strict {
      var uncertaintyIncreased := s.uncertainty >= p.uncertainty && s.uncertainty > base.uncertainty;
      var reexpanded := dependencies > 0 || edges > 0 || modules > 0 || context > 0 || failures > 0
                        || invalidations > 0 || uncertaintyIncreased;
      if !reexpanded { return None; }
      var severe := dependencies >= p.soloDependencyExpansion || edges >= p.soloCrossModuleEdges
                    || modules >= p.soloTouchedModules || context >= p.soloContextExpansion
                    || failures >= p.verifierFailures || uncertaintyIncreased;
      return Some(if severe then SoloNative else Guided);
    }
    if !inCooldown && current == Guided
       && (s.uncertainty >= p.uncertainty || s.dependencyExpansion >= p.dependencyExpansion
           || s.crossModuleEdges >= p.crossModuleEdges || s.touchedModules >= p.touchedModules
           || s.verifierFailures >= p.verifierFailures) {
      return Some(SoloNative);
    }
    if !inCooldown && s.scopeStabilized && s.mechanical {
      return Some(Strict);
    }
    return None;
  }

  // -------------------------------------------------------------------------- the collector

  datatype Activity = Activity(
    expanded: bool, newFiles: nat, newModules: set<string>, newEdges: nat,
    targets: set<string>, verifierFailure: bool, pattern: Option<string>)

  datatype WindowPolicy = WindowPolicy(window: nat, minimumEdits: nat, maxTargets: nat, maxUncertainty: real)

  predicate ExpansionFree(a: Activity) {
    !a.expanded && a.newFiles == 0 && a.newModules == {} && a.newEdges == 0
  }

  predicate Clean(a: Activity) { ExpansionFree(a) && !a.verifierFailure }

  function Targets(activities: seq<Activity>): set<string> {
    if activities == [] then {} else Targets(activities[..|activities| - 1]) + activities[|activities| - 1].targets
  }

  function Patterns(activities: seq<Activity>): seq<string> {
    if activities == [] then []
    else
      var last := activities[|activities| - 1];
      Patterns(activities[..|activities| - 1]) + (if last.pattern.Some? then [last.pattern.value] else [])
  }

  function Distinct(patterns: seq<string>): set<string> { set p | p in patterns }

  lemma OnePattern(patterns: seq<string>)
    ensures |Distinct(patterns)| == 1 <==>
            patterns != [] && (forall i :: 0 <= i < |patterns| ==> patterns[i] == patterns[0])
  {
    if patterns != [] {
      var rest := Distinct(patterns) - {patterns[0]};
      assert Distinct(patterns) == rest + {patterns[0]};
      if |rest| == 0 {
        forall i | 0 <= i < |patterns|
          ensures patterns[i] == patterns[0]
        {
          assert patterns[i] in Distinct(patterns) && patterns[i] !in rest;
        }
      }
    }
  }

  lemma {:induction false} TargetsAre(activities: seq<Activity>, file: string)
    ensures file in Targets(activities) <==> exists i :: 0 <= i < |activities| && file in activities[i].targets
  {
    if activities != [] {
      var before := activities[..|activities| - 1];
      TargetsAre(before, file);
      if file in Targets(before) {
        var i :| 0 <= i < |before| && file in before[i].targets;
        assert file in activities[i].targets;
      }
      if i :| 0 <= i < |activities| && file in activities[i].targets {
        assert i < |before| ==> file in before[i].targets;
      }
    }
  }

  /** One pattern for each edit that has one, in order. */
  lemma {:induction false} PatternsAre(a: seq<Activity>, b: seq<Activity>)
    ensures Patterns(a + b) == Patterns(a) + Patterns(b)
    ensures |b| == 1 ==> Patterns(b) == if b[0].pattern.Some? then [b[0].pattern.value] else []
  {
    if b == [] {
      assert a + b == a;
    } else {
      assert (a + b)[..|a + b| - 1] == a + b[..|b| - 1];
      PatternsAre(a, b[..|b| - 1]);
      assert b[..|b| - 1] == [] || |b| > 1;
    }
  }

  /** The last `window` activities, or all of them. */
  function Recent(activities: seq<Activity>, window: nat): seq<Activity> {
    if |activities| <= window then activities else activities[|activities| - window..]
  }

  predicate AllClean(activities: seq<Activity>) {
    forall i :: 0 <= i < |activities| ==> Clean(activities[i])
  }

  /** The multi-signal stability policy. */
  predicate Stable(w: WindowPolicy, activities: seq<Activity>, modules: set<string>, unresolved: bool) {
    var recent := Recent(activities, w.window);
    && |recent| == w.window && modules != {}
    && AllClean(recent) && !unresolved
    && |Targets(recent)| <= w.maxTargets
  }

  predicate Mechanical(w: WindowPolicy, activities: seq<Activity>, stable: bool, uncertainty: real, denied: bool) {
    var recent := Recent(activities, w.window);
    var patterns := Patterns(recent);
    && stable
    && |patterns| >= w.minimumEdits && patterns != [] &&
       (forall i :: 0 <= i < |patterns| ==> patterns[i] == patterns[0])
    && Targets(recent) != {} && |Targets(recent)| <= w.maxTargets
    && uncertainty <= w.maxUncertainty && !denied
  }

  /** What the repository bookkeeping and the agent's reports say at an observation. */
  datatype Measured = Measured(
    uncertainty: real, dependencyExpansion: nat, crossModuleEdges: nat, contextExpansion: nat, denied: bool)

  datatype Observation =
    | Quiet(newModules: set<string>)
    | Acted(activity: Activity)
    | Checked(verified: bool)

  const FAILED_CHECK := Activity(false, 0, {}, 0, {}, true, None)

  /** An unclean activity blocks the window until as many further activities as it holds. */
  lemma {:induction false} UncleanBlocksWindow(w: WindowPolicy, activities: seq<Activity>, modules: set<string>,
      unresolved: bool, i: nat)
    requires i < |activities| && !Clean(activities[i]) && |activities| - (i + 1) < w.window
    ensures !Stable(w, activities, modules, unresolved)
  {
    var recent := Recent(activities, w.window);
    var k := i - (|activities| - |recent|);
    assert recent[k] == activities[i];
  }

  /** An activity that undoes a stabilized scope. */
  predicate Invalidates(a: Activity, stabilizedTargets: set<string>) {
    a.expanded || a.newEdges != 0 || a.verifierFailure || !(a.targets <= stabilizedTargets)
  }

  /** Expansion is what new files, modules or edges amount to. */
  predicate Faithful(a: Activity) {
    a.expanded <==> a.newFiles > 0 || a.newModules != {} || a.newEdges > 0
  }

  lemma {:induction false} TargetsOfConcat(a: seq<Activity>, b: seq<Activity>)
    ensures Targets(a + b) == Targets(a) + Targets(b)
  {
    if b == [] {
      assert a + b == a;
    } else {
      assert (a + b)[..|a + b| - 1] == a + b[..|b| - 1];
      TargetsOfConcat(a, b[..|b| - 1]);
    }
  }

  lemma NothingLeft(a: set<string>, b: set<string>)
    ensures a - b == {} <==> a <= b
  {
    forall x | x in a && a - b == {} ensures x in b {
      assert x in b || x in a - b;
    }
  }

  lemma SmallerTargets(a: set<string>, b: set<string>)
    requires a <= b
    ensures |a| <= |b|
  {
    assert b == a + (b - a);
  }

  /** A clean activity within the stabilized targets slides the window and keeps it stable. */
  lemma SlidingStaysStable(w: WindowPolicy, activities: seq<Activity>, modules: set<string>, more: set<string>,
      a: Activity)
    requires w.window >= 1 && Stable(w, activities, modules, false)
    requires Clean(a) && a.targets <= Targets(Recent(activities, w.window))
    ensures Stable(w, activities + [a], modules + more, false)
    ensures Targets(Recent(activities + [a], w.window)) <= Targets(Recent(activities, w.window))
  {
    var recent, next := Recent(activities, w.window), Recent(activities + [a], w.window);
    assert next == recent[1..] + [a];
    assert recent == [recent[0]] + recent[1..];
    TargetsOfConcat([recent[0]], recent[1..]);
    TargetsOfConcat(recent[1..], [a]);
    assert [a][..0] == [];
    assert Targets([a]) == a.targets;
    SmallerTargets(Targets(next), Targets(recent));
    assert AllClean(next);
    assert modules <= modules + more;
  }

  // ------------------------------------------------------------- how often the mode can change

  /** Rounding down. */
  function Floor(x: int, t: nat): int
    requires t > 0
  {
    x / t
  }

  lemma Product(t: nat, p: int, q: int)
    requires p <= q
    ensures t * p <= t * q
  {
  }

  lemma FloorIs(x: int, t: nat, q: int)
    requires t > 0 && t * q <= x < t * (q + 1)
    ensures Floor(x, t) == q
  {
    var p := x / t;
    assert t * p <= x < t * (p + 1) by { FloorBounds(x, t); }
    if p < q { Product(t, p + 1, q); }
    if q < p { Product(t, q + 1, p); }
  }

  lemma FloorBounds(x: int, t: nat)
    requires t > 0
    ensures t * Floor(x, t) <= x < t * (Floor(x, t) + 1)
  {
    assert x == t * (x / t) + x % t;
    assert t * (x / t + 1) == t * (x / t) + t;
  }

  lemma FloorShift(x: int, t: nat)
    requires t > 0
    ensures Floor(x + t, t) == Floor(x, t) + 1
  {
    FloorBounds(x, t);
    var q := Floor(x, t);
    assert t * (q + 1) == t * q + t && t * (q + 2) == t * q + t + t;
    FloorIs(x + t, t, q + 1);
  }

  lemma FloorGrows(x: int, y: int, t: nat)
    requires t > 0 && x <= y
    ensures Floor(x, t) <= Floor(y, t)
  {
    FloorBounds(x, t);
    FloorBounds(y, t);
    if Floor(y, t) < Floor(x, t) { Product(t, Floor(y, t) + 1, Floor(x, t)); }
  }

  function Most(a: int, b: int): int { if a >= b then a else b }

  /** Changes possible when the last one, at observation `l`, waited for the cooldown. */
  function WaitedBound(l: int, c: nat): int {
    Most(2 * Floor(l - 1, c + 1) + 1, 2 * Floor(l, c + 1))
  }

  /** Changes possible when the last one, at observation `l`, left STRICT. */
  function LeftBound(l: int, c: nat): int {
    Most(2 * Floor(l - 2, c + 1) + 2, 2 * Floor(l - 1, c + 1) + 1)
  }

  lemma BoundsGrow(l: int, m: int, c: nat)
    requires l <= m
    ensures WaitedBound(l, c) <= WaitedBound(m, c) && LeftBound(l, c) <= LeftBound(m, c)
  {
    FloorGrows(l - 2, m - 2, c + 1);
    FloorGrows(l - 1, m - 1, c + 1);
    FloorGrows(l, m, c + 1);
  }

  /** Leaving STRICT costs at least one observation. */
  lemma LeavingBound(l: int, m: int, c: nat)
    requires l + 1 <= m
    ensures WaitedBound(l, c) + 1 <= LeftBound(m, c)
  {
    BoundsGrow(l + 1, m, c);
  }

  /** After leaving STRICT a whole cooldown passes before the next change. */
  lemma WaitingAfterLeaving(l: int, m: int, c: nat)
    requires l + c <= m
    ensures LeftBound(l, c) + 1 <= WaitedBound(m, c)
  {
    FloorShift(l - 2, c + 1);
    FloorShift(l - 1, c + 1);
    BoundsGrow(l + c, m, c);
  }

  lemma NoTwoMultiples(l: int, t: nat)
    requires t >= 2
    ensures Floor(l + 1, t) == Floor(l, t) || Floor(l, t) == Floor(l - 1, t)
  {
    FloorGrows(l, l + 1, t);
    FloorGrows(l - 1, l, t);
    FloorBounds(l + 1, t);
    FloorBounds(l, t);
    FloorBounds(l - 1, t);
    if Floor(l + 1, t) > Floor(l, t) && Floor(l, t) > Floor(l - 1, t) {
      Product(t, Floor(l, t) + 1, Floor(l + 1, t));
      Product(t, Floor(l - 1, t) + 1, Floor(l, t));
    }
  }

  lemma FloorSteps(x: int, t: nat)
    requires t > 0
    ensures Floor(x, t) <= Floor(x + 1, t) <= Floor(x, t) + 1
  {
    FloorShift(x, t);
    FloorGrows(x, x + 1, t);
    FloorGrows(x + 1, x + t, t);
  }

  lemma WaitingAfterWaiting(l: int, m: int, c: nat)
    requires l + c <= m && l < m
    ensures WaitedBound(l, c) + 1 <= WaitedBound(m, c)
  {
    var t := c + 1;
    if c == 0 {
      FloorIs(l - 1, 1, l - 1);
      FloorIs(l, 1, l);
      FloorIs(m - 1, 1, m - 1);
      FloorIs(m, 1, m);
      return;
    }
    FloorShift(l - 1, t);
    FloorShift(l, t);
    FloorSteps(l - 1, t);
    FloorSteps(l + c, t);
    FloorSteps(l + c - 1, t);
    NoTwoMultiples(l + c, t);
    BoundsGrow(l + c, m, c);
  }

  lemma BoundsSuffice(l: int, n: int, c: nat)
    requires 1 <= l <= n
    ensures WaitedBound(l, c) <= 2 * Floor(n - 1, c + 1) + 2 && LeftBound(l, c) <= 2 * Floor(n - 1, c + 1) + 2
  {
    FloorSteps(l - 1, c + 1);
    FloorGrows(l - 2, l - 1, c + 1);
    FloorGrows(l - 1, n - 1, c + 1);
  }

  lemma FirstChangeFits(l: int, c: nat)
    requires 1 <= l
    ensures 1 <= WaitedBound(l, c) && 1 <= LeftBound(l, c)
  {
    FloorIs(0, c + 1, 0);
    FloorGrows(0, l - 1, c + 1);
  }

  /** One run under observation: the collector's state, the desired mode and the last transition. */
  class ObservedRun {
    const policy: Policy
    const windows: WindowPolicy
    var desired: Mode
    var sequence: nat
    var lastSequence: Option<nat>
    var lastSnapshot: Option<Signals>
    var meaningful: seq<Activity>
    var modules: set<string>
    var stabilized: bool
    var stabilizedTargets: set<string>
    var invalidations: nat
    var verificationFailures: nat
    var unresolvedFailure: bool
    ghost var changes: nat
    ghost var left: bool          // the last change left STRICT

    /** The changes made so far fit the observations made so far. */
    ghost predicate Paced()
      reads this
    {
      match lastSequence
      case None => changes == 0 && lastSnapshot == None
      case Some(l) =>
        && 1 <= l <= sequence && lastSnapshot.Some?
        && changes <= (if left then LeftBound(l, policy.cooldown) else WaitedBound(l, policy.cooldown))
        && (desired == Strict ==> !left) && (desired == Guided ==> left)
    }

    /** The controller itself has put the run into STRICT, and it is still there. */
    predicate HeldStrict()
      reads this
    {
      desired == Strict && lastSnapshot.Some?
    }

    /** In a STRICT of the controller's own the whole window is clean, and no verifier failure is open. */
    predicate Calm()
      reads this
    {
      HeldStrict() ==>
        && stabilized && Stable(windows, meaningful, modules, unresolvedFailure)
        && Targets(Recent(meaningful, windows.window)) == stabilizedTargets
        && invalidations == lastSnapshot.value.invalidations
    }

    ghost predicate Valid()
      reads this
    {
      windows.window >= 2 && Paced() && Calm()
    }

    constructor (policy: Policy, windows: WindowPolicy, requested: Option<Mode>, modules: set<string>)
      requires windows.window >= 2
      ensures Valid() && sequence == 0 && changes == 0 && meaningful == []
      ensures this.policy == policy && this.windows == windows
      ensures desired == (if requested.Some? then requested.value else Guided)
    {
      this.policy, this.windows, this.modules := policy, windows, modules;
      desired := if requested.Some? then requested.value else Guided;
      sequence, lastSequence, lastSnapshot := 0, None, None;
      meaningful, stabilized, stabilizedTargets, invalidations := [], false, {}, 0;
      verificationFailures, unresolvedFailure, changes, left := 0, false, 0, false;
    }

    method RecordActivity(a: Activity)
      modifies this`meaningful, this`stabilized, this`invalidations
      ensures meaningful == old(meaningful) + [a]
      ensures var undone := old(stabilized) && Invalidates(a, stabilizedTargets);
              && stabilized == (old(stabilized) && !undone)
              && invalidations == old(invalidations) + (if undone then 1 else 0)
    {
      NothingLeft(a.targets, stabilizedTargets);
      meaningful := meaningful + [a];
      if !stabilized || (!a.expanded && a.newEdges == 0 && !a.verifierFailure && a.targets - stabilizedTargets == {}) {
        return;
      }
      stabilized := false;
      invalidations := invalidations + 1;
    }

    method Note(o: Observation)
      modifies this`meaningful, this`stabilized, this`invalidations, this`modules, this`verificationFailures,
               this`unresolvedFailure
      ensures modules == old(modules) + (match o case Quiet(m) => m case Acted(a) => a.newModules case Checked(_) => {})
      ensures var a := match o case Acted(a) => [a] case Checked(false) => [FAILED_CHECK] case _ => [];
              && meaningful == old(meaningful) + a
              && var undone := a != [] && old(stabilized) && Invalidates(a[0], stabilizedTargets);
                 && stabilized == (old(stabilized) && !undone)
                 && invalidations == old(invalidations) + (if undone then 1 else 0)
      ensures unresolvedFailure == (match o case Checked(verified) => !verified case _ => old(unresolvedFailure))
      ensures verificationFailures == old(verificationFailures) + (if o == Checked(false) then 1 else 0)
    {
      match o {
        case Quiet(newModules) => modules := modules + newModules;
        case Acted(a) =>
          modules := modules + a.newModules;
          RecordActivity(a);
        case Checked(verified) =>
          if verified {
            unresolvedFailure := false;
          } else {
            verificationFailures := verificationFailures + 1;
            unresolvedFailure := true;
            RecordActivity(FAILED_CHECK);
          }
      }
    }

    method Snapshot(m: Measured) returns (signals: Signals)
      modifies this`stabilized, this`stabilizedTargets, this`sequence
      ensures sequence == old(sequence) + 1
      ensures stabilized == signals.scopeStabilized == Stable(windows, meaningful, modules, unresolvedFailure)
      ensures stabilizedTargets ==
              (if stabilized then Targets(Recent(meaningful, windows.window)) else old(stabilizedTargets))
      ensures signals ==
              Signals(m.uncertainty, m.dependencyExpansion, m.crossModuleEdges, |modules|, m.contextExpansion,
                                 verificationFailures, invalidations, stabilized,
                                 Mechanical(windows, meaningful, stabilized, m.uncertainty, m.denied))
    {
      hide Targets, Patterns, Distinct, ExpansionFree;
      var start := if |meaningful| > windows.window then |meaningful| - windows.window else 0;
      var recent := meaningful[start..];
      var boundedTargets := Targets(recent);
      var expansionFree := forall i :: 0 <= i < |recent| ==> ExpansionFree(recent[i]);
      var targetsBounded := |boundedTargets| == 0 || |boundedTargets| <= windows.maxTargets;
      var verifierStable := !unresolvedFailure && forall i :: 0 <= i < |recent| ==> !recent[i].verifierFailure;
      stabilized := |recent| == windows.window && |modules| > 0 && expansionFree && targetsBounded && verifierStable;
      if stabilized { stabilizedTargets := boundedTargets; }
      var stableEdits := Patterns(recent);
      OnePattern(stableEdits);
      var mechanical := stabilized && |stableEdits| >= windows.minimumEdits && |Distinct(stableEdits)| == 1
                        && |boundedTargets| > 0 && |boundedTargets| <= windows.maxTargets
                        && m.uncertainty <= windows.maxUncertainty && !m.denied;
      signals := Signals(m.uncertainty, m.dependencyExpansion, m.crossModuleEdges, |modules|, m.contextExpansion,
                         verificationFailures, invalidations, stabilized, mechanical);
      sequence := sequence + 1;
    }

    /** An observation that does not undo the stabilized scope leaves the window stable. */
    lemma StableAfter(was: seq<Activity>, modulesWas: set<string>, unresolved: bool, o: Observation)
      requires windows.window >= 2 && Stable(windows, was, modulesWas, unresolved) && o != Checked(false)
      requires o.Acted? ==> Faithful(o.activity) && !Invalidates(o.activity, Targets(Recent(was, windows.window)))
      ensures !unresolved
      ensures match o
              case Quiet(more) => Stable(windows, was, modulesWas + more, false)
              case Acted(a) => Stable(windows, was + [a], modulesWas + a.newModules, false)
              case Checked(_) => Stable(windows, was, modulesWas, false)
    {
      match o
      case Quiet(more) => assert modulesWas <= modulesWas + more;
      case Acted(a) => SlidingStaysStable(windows, was, modulesWas, a.newModules, a);
      case Checked(_) =>
    }

    /** A change decided now, at this sequence, still fits. */
    lemma Repaced(to: Mode, signals: Signals)
      requires to != desired && sequence >= 1
      requires match lastSequence case None => changes == 0 case Some(l) => 1 <= l < sequence
      requires lastSequence.Some? ==>
        && changes <=
           (if left then LeftBound(lastSequence.value, policy.cooldown)
            else WaitedBound(lastSequence.value, policy.cooldown))
        && (desired == Strict ==> !left)
        && (desired != Strict ==> sequence - lastSequence.value >= policy.cooldown)
      ensures changes + 1 <=
              (if desired == Strict then LeftBound(sequence, policy.cooldown)
               else WaitedBound(sequence, policy.cooldown))
    {
      hide WaitedBound, LeftBound;
      if lastSequence.None? {
        FirstChangeFits(sequence, policy.cooldown);
      } else if desired == Strict {
        LeavingBound(lastSequence.value, sequence, policy.cooldown);
      } else if left {
        WaitingAfterLeaving(lastSequence.value, sequence, policy.cooldown);
      } else {
        WaitingAfterWaiting(lastSequence.value, sequence, policy.cooldown);
      }
    }

    lemma Suffices()
      requires Paced() && sequence >= 1
      ensures changes <= 2 * Floor(sequence - 1, policy.cooldown + 1) + 2
    {
      hide WaitedBound, LeftBound;
      if lastSequence.Some? { BoundsSuffice(lastSequence.value, sequence, policy.cooldown); }
      FloorIs(0, policy.cooldown + 1, 0);
      FloorGrows(0, sequence - 1, policy.cooldown + 1);
    }

    /** The controller's decision on a snapshot; a decided change is made at once. */
    method DecideOn(signals: Signals)
      requires Paced() && sequence >= 1 && (lastSequence.Some? ==> lastSequence.value < sequence)
      modifies this`desired, this`lastSequence, this`lastSnapshot, this`changes, this`left
      ensures Paced() && changes == old(changes) + (if desired != old(desired) then 1 else 0)
      ensures Target(policy, old(desired), signals, sequence, old(lastSequence), old(lastSnapshot), desired)
      ensures lastSnapshot == (if desired != old(desired) then Some(signals) else old(lastSnapshot))
      ensures lastSequence == (if desired != old(desired) then Some(sequence) else old(lastSequence))
    {
      hide WaitedBound, LeftBound, Grew, LimitReached, Broad;
      var decided := Decide(policy, desired, signals, sequence, lastSequence, lastSnapshot);
      if decided.Some? {
        Repaced(decided.value, signals);
        left := desired == Strict;
        changes := changes + 1;
        desired, lastSequence, lastSnapshot := decided.value, Some(sequence), Some(signals);
      }
    }

    /** The collector's part: in a STRICT of its own, the scope is still stable or an invalidation is on record. */
    method Observe(o: Observation, m: Measured) returns (signals: Signals)
      requires Calm() && windows.window >= 2 && (o.Acted? ==> Faithful(o.activity))
      modifies this`meaningful, this`stabilized, this`invalidations, this`modules, this`verificationFailures,
        this`unresolvedFailure, this`stabilizedTargets, this`sequence
      ensures sequence == old(sequence) + 1 && signals.invalidations == invalidations
      ensures stabilized == signals.scopeStabilized == Stable(windows, meaningful, modules, unresolvedFailure)
      ensures stabilized ==> stabilizedTargets == Targets(Recent(meaningful, windows.window))
      ensures HeldStrict() ==>
              invalidations > lastSnapshot.value.invalidations ||
              (stabilized && invalidations == lastSnapshot.value.invalidations)
    {
      hide Stable, Recent, Targets, Mechanical;
      Note(o);
      if HeldStrict() && stabilized {
        assert old(meaningful) + [] == old(meaningful) && old(modules) + {} == old(modules);
        StableAfter(old(meaningful), old(modules), old(unresolvedFailure), o);
      }
      signals := Snapshot(m);
    }

    /** One observation and what the controller makes of it. */
    method ObserveAndDecide(o: Observation, m: Measured)
      requires Valid() && (o.Acted? ==> Faithful(o.activity))
      modifies this
      ensures Valid() && sequence == old(sequence) + 1
      ensures changes == old(changes) + (if desired != old(desired) then 1 else 0)
      ensures changes <= 2 * Floor(sequence - 1, policy.cooldown + 1) + 2
      ensures desired == Strict && old(desired) != Strict ==> Stable(windows, meaningful, modules, unresolvedFailure)
    {
      hide Stable, Recent, Targets, WaitedBound, LeftBound, Floor, LimitReached, Broad;
      var signals := Observe(o, m);
      DecideOn(signals);
      Suffices();
    }
  }
}
