/** Provider health as threshold and cooldown arithmetic, and what a whole history of calls makes of it. */
module CircuitBreaker {
  import opened Wrappers

  datatype Policy = Policy(failureThreshold: nat, degradedThreshold: nat, cooldown: nat)

  predicate Sensible(p: Policy) { p.failureThreshold >= 1 && p.degradedThreshold >= 1 }

  datatype State = Healthy | Degraded | OpenCircuit | HalfOpen

  datatype Record = Record(consecutiveFailures: nat, openedAt: Option<int>, trialInFlight: bool)

  datatype Call =
    | Begin(provider: string, now: int)
    | Release(provider: string)
    | Outcome(provider: string, ok: bool, now: int)

  // ---------------------------------------------------------------- what a history amounts to

  function Before(h: seq<Call>): seq<Call>
    requires h != []
  {
    h[..|h| - 1]
  }

  function Latest(h: seq<Call>): Call
    requires h != []
  {
    h[|h| - 1]
  }

  /** Failures reported since the provider last succeeded. */
  function FailuresSince(h: seq<Call>, provider: string): nat {
    if h == [] then 0
    else
      match Latest(h)
      case Outcome(p, ok, _) =>
        if p != provider then FailuresSince(Before(h), provider)
        else if ok then 0 else FailuresSince(Before(h), provider) + 1
      case _ => FailuresSince(Before(h), provider)
  }

  /** When the provider last failed, if it has not succeeded since. */
  function LastFailure(h: seq<Call>, provider: string): Option<int> {
    if h == [] then None
    else
      match Latest(h)
      case Outcome(p, ok, now) =>
        if p != provider then LastFailure(Before(h), provider) else if ok then None else Some(now)
      case _ => LastFailure(Before(h), provider)
  }

  function StateAfter(policy: Policy, h: seq<Call>, provider: string, now: int): State {
    var failures := FailuresSince(h, provider);
    if failures < policy.failureThreshold then (if failures >= policy.degradedThreshold then Degraded else Healthy)
    else if LastFailure(h, provider).Some? && now - LastFailure(h, provider).value >= policy.cooldown then HalfOpen
    else OpenCircuit
  }

  /** A probe was begun while the circuit was half open, and nothing has ended it since. */
  predicate ProbeInFlight(policy: Policy, h: seq<Call>, provider: string) {
    h != [] &&
    match Latest(h)
    case Begin(p, now) =>
      || ProbeInFlight(policy, Before(h), provider)
      || (p == provider && StateAfter(policy, Before(h), provider, now) == HalfOpen)
    case Release(p) => p != provider && ProbeInFlight(policy, Before(h), provider)
    case Outcome(p, _, _) => p != provider && ProbeInFlight(policy, Before(h), provider)
  }

  predicate MayAttempt(policy: Policy, h: seq<Call>, provider: string, now: int) {
    match StateAfter(policy, h, provider, now)
    case OpenCircuit => false
    case HalfOpen => !ProbeInFlight(policy, h, provider)
    case _ => true
  }

  class ProviderCircuitBreaker {
    const policy: Policy
    var providers: map<string, Record>
    ghost var history: seq<Call>

    /** Each record sums up the history of its provider; no record is an empty history. */
    ghost predicate Valid()
      reads this
    {
      && Sensible(policy)
      && forall p: string {:trigger Summary(p)} :: Summary(p)
    }

    ghost predicate Summary(p: string)
      reads this
    {
      var r := if p in providers then providers[p] else Record(0, None, false);
      && r.consecutiveFailures == FailuresSince(history, p)
      && r.openedAt == (if FailuresSince(history, p) >= policy.failureThreshold then LastFailure(history, p) else None)
      && r.trialInFlight == ProbeInFlight(policy, history, p)
    }

    constructor (policy: Policy)
      requires Sensible(policy)
      ensures Valid() && this.policy == policy && history == []
    {
      this.policy, providers, history := policy, map[], [];
    }

    method StateOf(provider: string, now: int) returns (state: State)
      requires Valid()
      ensures state == StateAfter(policy, history, provider, now)
    {
      assert Summary(provider);
      if provider !in providers { return Healthy; }
      var r := providers[provider];
      if r.consecutiveFailures < policy.failureThreshold {
        return if r.consecutiveFailures >= policy.degradedThreshold then Degraded else Healthy;
      }
      if r.openedAt.Some? && now - r.openedAt.value >= policy.cooldown { return HalfOpen; }
      return OpenCircuit;
    }

    method CanAttempt(provider: string, now: int) returns (ok: bool)
      requires Valid()
      ensures ok <==> MayAttempt(policy, history, provider, now)
    {
      var state := StateOf(provider, now);
      if state == OpenCircuit { return false; }
      if state == HalfOpen {
        assert Summary(provider);
        return provider in providers && !providers[provider].trialInFlight;
      }
      return true;
    }

    method BeginAttempt(provider: string, now: int)
      requires Valid()
      modifies this
      ensures Valid() && history == old(history) + [Begin(provider, now)]
    {
      var state := StateOf(provider, now);
      assert Summary(provider);
      ghost var h := history;
      history := history + [Begin(provider, now)];
      if state == HalfOpen && provider in providers {
        providers := providers[provider := providers[provider].(trialInFlight := true)];
      }
      forall p: string ensures Summary(p) {
        assert Before(history) == h;
        assert old(Summary(p));
      }
    }

    method ReleaseProbe(provider: string)
      requires Valid()
      modifies this
      ensures Valid() && history == old(history) + [Release(provider)]
    {
      assert Summary(provider);
      ghost var h := history;
      history := history + [Release(provider)];
      if provider in providers {
        providers := providers[provider := providers[provider].(trialInFlight := false)];
      }
      forall p: string ensures Summary(p) {
        assert Before(history) == h;
        assert old(Summary(p));
      }
    }

    method RecordOutcome(provider: string, ok: bool, now: int)
      requires Valid()
      modifies this
      ensures Valid() && history == old(history) + [Outcome(provider, ok, now)]
    {
      assert Summary(provider);
      ghost var h := history;
      history := history + [Outcome(provider, ok, now)];
      if ok {
        providers := providers[provider := Record(0, None, false)];
      } else {
        var r := if provider in providers then providers[provider] else Record(0, None, false);
        var failures := r.consecutiveFailures + 1;
        providers := providers[provider :=
            Record(failures, if failures >= policy.failureThreshold then Some(now) else None, false)];
      }
      forall p: string ensures Summary(p) {
        assert Before(history) == h;
        assert old(Summary(p));
      }
    }
  }

  // ------------------------------------------------------------------------- whole histories

  /** The calls that end a probe of the provider. */
  predicate Ends(call: Call, provider: string) {
    !call.Begin? && call.provider == provider
  }

  predicate NoneEnds(calls: seq<Call>, provider: string) {
    forall i :: 0 <= i < |calls| ==> !Ends(calls[i], provider)
  }

  lemma {:induction false} ProbeMeansOpened(policy: Policy, h: seq<Call>, provider: string)
    requires ProbeInFlight(policy, h, provider)
    ensures FailuresSince(h, provider) >= policy.failureThreshold
  {
    if ProbeInFlight(policy, Before(h), provider) { ProbeMeansOpened(policy, Before(h), provider); }
  }

  lemma {:induction false} ProbeLasts(policy: Policy, h: seq<Call>, more: seq<Call>, provider: string)
    requires ProbeInFlight(policy, h, provider) && NoneEnds(more, provider)
    ensures ProbeInFlight(policy, h + more, provider)
  {
    if more == [] {
      assert h + more == h;
    } else {
      ProbeLasts(policy, h, Before(more), provider);
      assert Before(h + more) == h + Before(more);
    }
  }

  /** A consumed probe slot refuses every attempt, at any time, until an outcome or a release. */
  lemma ConsumedProbeBlocks(policy: Policy, h: seq<Call>, more: seq<Call>, provider: string, now: int)
    requires ProbeInFlight(policy, h, provider) && NoneEnds(more, provider)
    ensures !MayAttempt(policy, h + more, provider, now)
  {
    ProbeLasts(policy, h, more, provider);
    ProbeMeansOpened(policy, h + more, provider);
  }

  lemma {:induction false} FailedSometime(h: seq<Call>, provider: string)
    ensures FailuresSince(h, provider) > 0 <==> LastFailure(h, provider).Some?
  {
    if h != [] { FailedSometime(Before(h), provider); }
  }

  /** No time at which an attempt would be let through, as long as nothing else is reported. */
  ghost predicate Wedged(policy: Policy, h: seq<Call>, provider: string) {
    forall now: int :: !MayAttempt(policy, h, provider, now)
  }

  lemma WedgedIffProbeInFlight(policy: Policy, h: seq<Call>, provider: string)
    requires Sensible(policy)
    ensures Wedged(policy, h, provider) <==> ProbeInFlight(policy, h, provider)
  {
    FailedSometime(h, provider);
    if ProbeInFlight(policy, h, provider) {
      ProbeMeansOpened(policy, h, provider);
    } else {
      var last := LastFailure(h, provider);
      var later := (if last.Some? then last.value else 0) + policy.cooldown;
      assert MayAttempt(policy, h, provider, later);
    }
  }

  /** Every probe begun is ended by a later outcome or release. */
  predicate Obeys(h: seq<Call>, provider: string) {
    forall i :: 0 <= i < |h| && h[i].Begin? && h[i].provider == provider ==> EndsAfter(h, i, provider)
  }

  predicate EndsAfter(h: seq<Call>, i: nat, provider: string) {
    exists j :: i < j < |h| && Ends(h[j], provider)
  }

  lemma {:induction false} ProbeWasBegun(policy: Policy, h: seq<Call>, provider: string) returns (i: nat)
    requires ProbeInFlight(policy, h, provider)
    ensures i < |h| && h[i].Begin? && h[i].provider == provider && !EndsAfter(h, i, provider)
  {
    if ProbeInFlight(policy, Before(h), provider) {
      i := ProbeWasBegun(policy, Before(h), provider);
      forall j | i < j < |h| ensures !Ends(h[j], provider) {
        if j < |h| - 1 { assert Before(h)[j] == h[j]; }
      }
    } else {
      i := |h| - 1;
    }
  }

  /** Callers that keep the begin and finish contract never wedge the circuit. */
  lemma ObeyedIsNeverWedged(policy: Policy, h: seq<Call>, provider: string)
    requires Sensible(policy) && Obeys(h, provider)
    ensures !Wedged(policy, h, provider)
  {
    WedgedIffProbeInFlight(policy, h, provider);
    if ProbeInFlight(policy, h, provider) {
      var i := ProbeWasBegun(policy, h, provider);
    }
  }

  // ------------------------------------------------------------------------- the two callers

  datatype Ending = Succeeded | ProviderFailure | OtherFailure | CancelledRun

  /** Up to the call of the provider: the refusal, or the probe slot. The clock may have moved on. */
  method StartAttempt(breaker: ProviderCircuitBreaker, provider: string, t0: int, t1: int, t2: int)
      returns (started: bool)
    requires breaker.Valid() && t0 <= t1 <= t2
    modifies breaker
    ensures breaker.Valid()
    ensures started <==> old(MayAttempt(breaker.policy, breaker.history, provider, t0))
    ensures !started ==> breaker.history == old(breaker.history)
    ensures started ==>
      (ProbeInFlight(breaker.policy, breaker.history, provider)
       <==> old(StateAfter(breaker.policy, breaker.history, provider, t1) == HalfOpen ||
           ProbeInFlight(breaker.policy, breaker.history, provider)))
  {
    started := breaker.CanAttempt(provider, t0);
    if !started { return; }
    var state := breaker.StateOf(provider, t1);
    ghost var h := breaker.history;
    if state == HalfOpen {
      breaker.BeginAttempt(provider, t2);
      assert Before(breaker.history) == h;
    }
  }

  /** After the call. A cancelled execution attempt leaves without saying anything to the breaker. */
  method FinishAttempt(breaker: ProviderCircuitBreaker, provider: string, ending: Ending, now: int)
    requires breaker.Valid()
    modifies breaker
    ensures breaker.Valid()
    ensures ending == CancelledRun ==> breaker.history == old(breaker.history)
    ensures ending != CancelledRun ==>
      && |breaker.history| == |old(breaker.history)| + 1 && Before(breaker.history) == old(breaker.history)
      && Ends(Latest(breaker.history), provider) && !ProbeInFlight(breaker.policy, breaker.history, provider)
    ensures ending == Succeeded ==> breaker.history == old(breaker.history) + [Outcome(provider, true, now)]
    ensures ending == ProviderFailure ==> breaker.history == old(breaker.history) + [Outcome(provider, false, now)]
    ensures ending == OtherFailure ==> breaker.history == old(breaker.history) + [Release(provider)]
  {
    match ending {
      case Succeeded => breaker.RecordOutcome(provider, true, now);
      case ProviderFailure => breaker.RecordOutcome(provider, false, now);
      case OtherFailure => breaker.ReleaseProbe(provider);
      case CancelledRun =>
    }
    assert ending != CancelledRun ==> Before(breaker.history) == old(breaker.history);
  }

  /** The reviewer's session: it has no cancelled ending, so what it begins it also ends. */
  method RunReviewerSession(breaker: ProviderCircuitBreaker, provider: string, ending: Ending, t0: int, t1: int,
      t2: int, t3: int)
    returns (started: bool)
    requires breaker.Valid() && t0 <= t1 <= t2 <= t3 && ending != CancelledRun
    modifies breaker
    ensures breaker.Valid()
    ensures started ==> !Wedged(breaker.policy, breaker.history, provider)
    ensures !started ==> breaker.history == old(breaker.history)
  {
    started := StartAttempt(breaker, provider, t0, t1, t2);
    if started {
      FinishAttempt(breaker, provider, ending, t3);
      WedgedIffProbeInFlight(breaker.policy, breaker.history, provider);
    }
  }

  /** A cancelled half-open attempt of the execution path wedges the circuit, if nobody else reports. */
  method CancelledProbe(breaker: ProviderCircuitBreaker, provider: string, t0: int, t1: int, t2: int, t3: int)
    requires breaker.Valid() && t0 <= t1 <= t2 <= t3
    requires MayAttempt(breaker.policy, breaker.history, provider, t0)
    modifies breaker
    ensures breaker.Valid()
    ensures Wedged(breaker.policy, breaker.history, provider) <==>
            old(StateAfter(breaker.policy, breaker.history, provider, t1)) == HalfOpen
  {
    ghost var h := breaker.history;
    var started := StartAttempt(breaker, provider, t0, t1, t2);
    FinishAttempt(breaker, provider, CancelledRun, t3);
    WedgedIffProbeInFlight(breaker.policy, breaker.history, provider);
    if ProbeInFlight(breaker.policy, h, provider) { ProbeMeansOpened(breaker.policy, h, provider); }
  }
}
