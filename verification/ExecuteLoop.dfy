/**
 * The verify, repair, recover and restart loop of one run, for arbitrary answers of the agent, the
 * verifier, the provider circuit and the operator. Each answer comes from an oracle of the run.
 */
module ExecuteLoop {
  import opened Wrappers

  // ------------------------------------------------------------------------------ budgets

  datatype Category = Execution | Reserve   // Reserve is the recovery share

  datatype Shares = Shares(execution: real, recovery: real)

  /** A missing limit is an unconfigured budget: there is nothing to compare spending against. */
  datatype Budget = Budget(hard: bool, limit: Option<real>, shares: Shares)

  function Allocated(b: Budget, c: Category): Option<real> {
    match b.limit
    case None => None
    case Some(limit) => Some(limit * (if c == Execution then b.shares.execution else b.shares.recovery))
  }

  /** Only a hard budget whose category has nothing left refuses. */
  predicate Authorized(b: Budget, c: Category, spent: real) {
    var share := Allocated(b, c);
    share.None? || !b.hard || share.value - spent > 0.0
  }

  const MAX_EVENT_COST := 1000.0

  function Sanitized(reported: real): Option<real> {
    if reported < 0.0 || reported > MAX_EVENT_COST then None else Some(reported)
  }

  /** A cost is charged as reported, up to and including the most one event may cost, and not below nothing. */
  lemma SanitizedIff(reported: real)
    ensures Sanitized(reported) == Some(reported) <==> 0.0 <= reported <= 1000.0
    ensures Sanitized(reported).Some? ==> Sanitized(reported).value == reported
  {
  }

  /** Spending is refused exactly under a hard budget with a limit whose share is used up. */
  lemma AuthorizedIff(b: Budget, c: Category, spent: real)
    ensures !Authorized(b, c, spent) <==>
      b.hard && b.limit.Some? &&
      spent >= b.limit.value * (match c case Execution => b.shares.execution case Reserve => b.shares.recovery)
  {
  }

  // ------------------------------------------------------------------------- mode requests

  datatype Method = LiveUpdate | SafeRestart | DeferredBoundary

  datatype Capabilities = Capabilities(livePolicyUpdate: bool, safeSessionRestart: bool)

  datatype Request = Request(broadening: bool, delivered: bool)

  /** How a mode change asked for during a session is to be enforced. */
  function PlanEnforcement(r: Request, c: Capabilities, restartsUsed: nat, maxRestarts: nat): Method {
    if c.livePolicyUpdate then LiveUpdate
    else if c.safeSessionRestart && r.broadening && restartsUsed < maxRestarts then SafeRestart
    else DeferredBoundary
  }

  function Pended(r: Request, c: Capabilities, restartsUsed: nat, maxRestarts: nat): Method {
    var planned := PlanEnforcement(r, c, restartsUsed, maxRestarts);
    if planned == LiveUpdate && !r.delivered then DeferredBoundary else planned
  }

  // ------------------------------------------------------------------------------- oracles

  /** One agent event, or an operator's mode request landing between two of them. */
  datatype Item =
    | Usage(cost: real)
    | Working(decided: Option<Request>)     // a tool event, which may decide a mode change
    | Acknowledge(matches: bool)
    | AgentError
    | Operator(request: Request)

  datatype Script = Script(
    refused: bool,                          // the provider circuit refuses the attempt
    starts: bool, items: seq<Item>, breaks: bool,
    whileCancelling: seq<Request>,
    retryable: bool, cancelled: bool)

  datatype CheckState = Verified | Quarantined | Failed | NotChecked | Other

  /** A verifier result as given, and after the authority and candidate fences. */
  datatype Answer = Answer(throws: bool, raw: CheckState, state: CheckState, retryUseful: bool, unrepairable: bool)

  function Severity(s: CheckState): nat {
    match s
    case Verified => 0
    case Quarantined => 1
    case Failed => 2
    case _ => 3
  }

  /** From best to worst; a check that was not made and any other state are the worst alike. */
  lemma SeverityOrder()
    ensures Severity(Verified) < Severity(Quarantined) < Severity(Failed) < Severity(NotChecked) == Severity(Other)
  {
  }

  /** Which of the three ways a mode change takes, and what is pending if a live update was not delivered. */
  lemma EnforcementIs(r: Request, c: Capabilities, used: nat, max: nat)
    ensures var restarts := !c.livePolicyUpdate && c.safeSessionRestart && r.broadening && used < max;
      && (Pended(r, c, used, max) == LiveUpdate <==> c.livePolicyUpdate && r.delivered)
      && (Pended(r, c, used, max) == SafeRestart <==> restarts)
  {
  }

  // ---------------------------------------------------------- what a session makes of its events

  datatype Ending = Ended | Broken | Restarted

  /** What is charged in a session, how it ends and what policy it leaves pending. */
  datatype Heard = Heard(charges: seq<Event>, ending: Ending, pending: Option<Method>)

  function Joined(charges: seq<Event>, h: Heard): Heard { h.(charges := charges + h.charges) }

  /** The policy pending after an item, under the restarts used so far. */
  function PendingAfter(item: Item, pending: Option<Method>, c: Capabilities, used: nat, max: nat): Option<Method> {
    match item
    case Working(Some(request)) => Some(Pended(request, c, used, max))
    case Operator(request) => Some(Pended(request, c, used, max))
    case Acknowledge(matches) => if pending == Some(LiveUpdate) && matches then None else pending
    case _ => pending
  }

  function ChargeOf(item: Item): seq<Event> {
    match item
    case Usage(cost) => if Sanitized(cost).Some? then [Charge(cost)] else []
    case _ => []
  }

  /** The last request that lands while the session is being cancelled wins. */
  function Late(requests: seq<Request>, pending: Option<Method>, c: Capabilities, used: nat, max: nat): Option<Method> {
    if requests == [] then pending else Some(Pended(requests[|requests| - 1], c, used, max))
  }

  /** From item `i` on: an error breaks the session; an agent event that finds a safe restart pending ends it. */
  function Hear(s: Script, i: nat, pending: Option<Method>, c: Capabilities, used: nat, max: nat): Heard
    requires i <= |s.items|
    decreases |s.items| - i
  {
    if i == |s.items| then Heard([], if s.breaks then Broken else Ended, pending)
    else if s.items[i].AgentError? then Heard([], Broken, pending)
    else
      var item := s.items[i];
      var next := PendingAfter(item, pending, c, used, max);
      if !item.Operator? && next == Some(SafeRestart)
      then Heard(ChargeOf(item), Restarted, Late(s.whileCancelling, next, c, used, max))
      else Joined(ChargeOf(item), Hear(s, i + 1, next, c, used, max))
  }

  function HearAll(s: Script, pending: Option<Method>, c: Capabilities, used: nat, max: nat): Heard {
    if s.starts then Hear(s, 0, pending, c, used, max) else Heard([], Broken, pending)
  }

  lemma JoinedTwice(a: seq<Event>, b: seq<Event>, h: Heard)
    ensures Joined(a, Joined(b, h)) == Joined(a + b, h) && Joined([], h) == h
  {
    assert a + (b + h.charges) == a + b + h.charges && [] + h.charges == h.charges;
  }

  /** What hearing item `i` makes of a session heard up to it. */
  lemma HeardItem(h: Heard, got: seq<Event>, s: Script, i: nat, pending: Option<Method>, c: Capabilities, used: nat,
      max: nat)
    requires i < |s.items| && h == Joined(got, Hear(s, i, pending, c, used, max))
    ensures s.items[i].AgentError? ==> h == Heard(got, Broken, pending)
    ensures var item, next := s.items[i], PendingAfter(s.items[i], pending, c, used, max);
            !item.AgentError? ==>
              if !item.Operator? && next == Some(SafeRestart)
              then h == Heard(got + ChargeOf(item), Restarted, Late(s.whileCancelling, next, c, used, max))
              else h == Joined(got + ChargeOf(item), Hear(s, i + 1, next, c, used, max))
  {
    hide PendingAfter, ChargeOf, Late;
    if !s.items[i].AgentError? {
      JoinedTwice(got, ChargeOf(s.items[i]),
          Hear(s, i + 1, PendingAfter(s.items[i], pending, c, used, max), c, used, max));
    }
    assert got + [] == got;
  }

  lemma HeardEnd(h: Heard, got: seq<Event>, s: Script, pending: Option<Method>, c: Capabilities, used: nat, max: nat)
    requires h == Joined(got, Hear(s, |s.items|, pending, c, used, max))
    ensures h == Heard(got, if s.breaks then Broken else Ended, pending)
  {
    assert got + [] == got;
  }

  lemma HeardStart(h: Heard, s: Script, pending: Option<Method>, c: Capabilities, used: nat, max: nat)
    requires h == HearAll(s, pending, c, used, max)
    ensures if s.starts then h == Joined([], Hear(s, 0, pending, c, used, max)) else h == Heard([], Broken, pending)
  {
    JoinedTwice([], [], h);
  }

  // ---------------------------------------------------------------- what a run leaves behind

  datatype Kind = First | Repair | Restart | Recovery

  datatype Event =
    | Session(kind: Kind)
    | Charge(amount: real)
    | Check(state: CheckState, digest: nat)

  type Log = seq<Event>

  function Init(log: Log): Log
    requires log != []
  {
    log[..|log| - 1]
  }

  function Last(log: Log): Event
    requires log != []
  {
    log[|log| - 1]
  }

  function Sessions(log: Log, kind: Kind): nat {
    if log == [] then 0 else Sessions(Init(log), kind) + (if Last(log) == Session(kind) then 1 else 0)
  }

  function Checks(log: Log): seq<CheckState> {
    if log == [] then [] else Checks(Init(log)) + (if Last(log).Check? then [Last(log).state] else [])
  }

  function Current(log: Log): Option<Kind> {
    if log == [] then None else if Last(log).Session? then Some(Last(log).kind) else Current(Init(log))
  }

  /** A charge falls on the reserve exactly when the session running is a recovery. */
  function Spent(log: Log, c: Category): real {
    if log == [] then 0.0
    else Spent(Init(log), c) +
         (if Last(log).Charge? && (c == Reserve <==> Current(Init(log)) == Some(Recovery)) then Last(log).amount
             else 0.0)
  }

  /** The candidate that the latest repair was started for: the one checked just before it. */
  function Repaired(log: Log): Option<nat> {
    if |log| < 2 then None
    else if Last(log) == Session(Repair) && Last(Init(log)).Check? then Some(Last(Init(log)).digest)
    else Repaired(Init(log))
  }

  predicate EndsVerified(log: Log) {
    log != [] && Last(log).Check? && Last(log).state == Verified
  }

  /** What earlier executions of the same run left: their checks and their spending. */
  datatype Past = Past(checks: seq<CheckState>, execution: real, recovery: real)

  function Total(past: Past, log: Log, c: Category): real {
    (if c == Execution then past.execution else past.recovery) + Spent(log, c)
  }

  /** The last check did not come out worse than the one before it. */
  predicate NotWorse(past: Past, log: Log) {
    var checks := past.checks + Checks(log);
    |checks| >= 2 ==> Severity(checks[|checks| - 1]) <= Severity(checks[|checks| - 2])
  }

  /** Whether an event may follow a log. */
  predicate Allowed(b: Budget, past: Past, log: Log, e: Event) {
    && !EndsVerified(log)
    && match e
       case Session(First) => log == [] && Authorized(b, Execution, Total(past, log, Execution))
       case Session(Repair) =>
         && log != [] && Last(log).Check?
         && NotWorse(past, log)
         && Repaired(log) != Some(Last(log).digest)
         && Authorized(b, Execution, Total(past, log, Execution))
       case Session(Restart) => log != []
       case Session(Recovery) => Authorized(b, Reserve, Total(past, log, Reserve))
       case Charge(amount) => Current(log).Some? && 0.0 <= amount <= MAX_EVENT_COST
       case Check(_, _) => Current(log).Some?
  }

  predicate Lawful(b: Budget, past: Past, log: Log) {
    log == [] || (Lawful(b, past, Init(log)) && Allowed(b, past, Init(log), Last(log)))
  }

  lemma SessionOpens(log: Log, kind: Kind)
    ensures Current(log + [Session(kind)]) == Some(kind) && !EndsVerified(log + [Session(kind)])
    ensures forall c :: Spent(log + [Session(kind)], c) == Spent(log, c)
  {
    Grown(log, Session(kind));
  }

  lemma Grown(log: Log, e: Event)
    ensures Init(log + [e]) == log && Last(log + [e]) == e
  {
  }

  /** One session of this kind and its charges were added, nothing else. */
  predicate OnlySession(before: Log, after: Log, kind: Kind) {
    && |before| < |after| && after[..|before|] == before && after[|before|] == Session(kind)
    && forall i :: |before| < i < |after| ==> after[i].Charge?
  }

  lemma {:induction false} OnlySessionMeans(before: Log, after: Log, kind: Kind)
    requires OnlySession(before, after, kind)
    ensures forall k :: Sessions(after, k) == Sessions(before, k) + (if k == kind then 1 else 0)
    ensures Checks(after) == Checks(before) && Current(after) == Some(kind) && !EndsVerified(after)
    ensures kind != Repair ==> Repaired(after) == Repaired(before)
    ensures kind == Repair && before != [] && Last(before).Check? ==> Repaired(after) == Some(Last(before).digest)
  {
    assert Init(after)[..|before|] == before;
    if |after| == |before| + 1 {
      assert Init(after) == before;
    } else {
      OnlySessionMeans(before, Init(after), kind);
    }
  }

  lemma {:induction false} HeardCharges(s: Script, i: nat, pending: Option<Method>, c: Capabilities, used: nat,
      max: nat)
    requires i <= |s.items|
    ensures forall j :: 0 <= j < |Hear(s, i, pending, c, used, max).charges| ==>
            Hear(s, i, pending, c, used, max).charges[j].Charge?
    decreases |s.items| - i
  {
    if i < |s.items| {
      HeardCharges(s, i + 1, PendingAfter(s.items[i], pending, c, used, max), c, used, max);
    }
  }

  /** A session and what is heard in it are one session and charges. */
  lemma HeardIsSession(before: Log, kind: Kind, s: Script, pending: Option<Method>, c: Capabilities, used: nat,
      max: nat)
    ensures OnlySession(before, before + [Session(kind)] + HearAll(s, pending, c, used, max).charges, kind)
  {
    if s.starts { HeardCharges(s, 0, pending, c, used, max); }
  }

  /** How the sessions counted in a log may have grown. */
  predicate Grew(before: Log, after: Log, first: nat, repairs: nat, restarts: nat, recoveries: nat) {
    && Sessions(after, First) <= Sessions(before, First) + first
    && Sessions(after, Repair) <= Sessions(before, Repair) + repairs
    && Sessions(after, Restart) <= Sessions(before, Restart) + restarts
    && Sessions(after, Recovery) <= Sessions(before, Recovery) + recoveries
    && Checks(after) == Checks(before)
  }

  function One(b: bool): nat { if b then 1 else 0 }

  datatype Outcome = Completed | FailedRun | Paused

  datatype Verdict = Thrown | Settled | Repairing

  /** Only checks were added. */
  predicate SameSessions(before: Log, after: Log) {
    && (forall k :: Sessions(after, k) == Sessions(before, k))
    && Repaired(after) == Repaired(before) && Current(after) == Current(before)
  }

  datatype Policy = Policy(maxRepairs: nat, maxRecoveries: nat, maxRestarts: nat, capabilities: Capabilities,
      budget: Budget)

  function Remaining(max: nat, used: nat): nat { if used < max then max - used else 0 }

  lemma CheckCounts(log: Log, e: Event)
    requires e.Check?
    ensures Checked(log, log + [e], e.state, e.digest)
  {
    Grown(log, e);
  }

  /** What one more recorded check changes. */
  predicate Checked(before: Log, after: Log, state: CheckState, digest: nat) {
    && after != [] && Last(after) == Check(state, digest)
    && (forall k :: Sessions(after, k) == Sessions(before, k))
    && Checks(after) == Checks(before) + [state]
    && Repaired(after) == Repaired(before) && Current(after) == Current(before)
    && (EndsVerified(after) <==> state == Verified)
  }

  // ------------------------------------------------------- the run, as a function of the answers

  /** Everything a run asks: scripts for its attempts, answers for its checks, digests for its captures. */
  datatype World = World(
    policy: Policy, past: Past, scripts: nat -> Script, answers: nat -> Answer, digests: nat -> nat, configured: bool)

  datatype Books = Books(
    log: Log, recoveriesUsed: nat, restartsUsed: nat, pending: Option<Method>, attempts: nat)

  function HeardIn(w: World, b: Books, script: Script): Heard {
    HearAll(script, b.pending, w.policy.capabilities, b.restartsUsed, w.policy.maxRestarts)
  }

  function AfterSession(w: World, b: Books, kind: Kind): Books {
    var h := HeardIn(w, b, w.scripts(b.attempts));
    b.(log := b.log + [Session(kind)] + h.charges, pending := h.pending, attempts := b.attempts + 1)
  }

  /** Another session may follow one that broke. */
  predicate Recoverable(w: World, script: Script, b: Books) {
    && !script.cancelled && script.retryable && b.recoveriesUsed < w.policy.maxRecoveries
    && Authorized(w.policy.budget, Reserve, Total(w.past, b.log, Reserve))
  }

  datatype Attempted = Attempted(books: Books, failed: bool, restart: bool)

  /** A session and the recoveries after it. */
  function Tried(w: World, b: Books, kind: Kind): Attempted
    decreases Remaining(w.policy.maxRecoveries, b.recoveriesUsed)
  {
    var script := w.scripts(b.attempts);
    if script.refused then Attempted(b.(attempts := b.attempts + 1), true, false)
    else
      var after, ending := AfterSession(w, b, kind), HeardIn(w, b, script).ending;
      if ending != Broken then Attempted(after, false, ending == Restarted)
      else if !Recoverable(w, script, after) then Attempted(after, true, false)
      else Tried(w, after.(recoveriesUsed := after.recoveriesUsed + 1), Recovery)
  }

  lemma TriedOnce(w: World, b: Books, kind: Kind)
    ensures var script, h := w.scripts(b.attempts), HeardIn(w, b, w.scripts(b.attempts));
            var after := b.(log := b.log + [Session(kind)] + h.charges, pending := h.pending, attempts :=
                b.attempts + 1);
            Tried(w, b, kind) ==
              if script.refused then Attempted(b.(attempts := b.attempts + 1), true, false)
              else if h.ending != Broken then Attempted(after, false, h.ending == Restarted)
              else if !Recoverable(w, script, after) then Attempted(after, true, false)
              else Tried(w, after.(recoveriesUsed := after.recoveriesUsed + 1), Recovery)
  {
  }

  /** A restart that is pending can still be afforded. */
  predicate Affordable(w: World, b: Books) {
    b.pending == Some(SafeRestart) ==> b.restartsUsed < w.policy.maxRestarts
  }

  lemma {:induction false} HearAffords(s: Script, i: nat, pending: Option<Method>, c: Capabilities, used: nat, max: nat)
    requires i <= |s.items| && (pending == Some(SafeRestart) ==> used < max)
    ensures Hear(s, i, pending, c, used, max).pending == Some(SafeRestart) ==> used < max
    decreases |s.items| - i
  {
    if i < |s.items| {
      HearAffords(s, i + 1, PendingAfter(s.items[i], pending, c, used, max), c, used, max);
    }
  }

  lemma {:induction false} TriedAffords(w: World, b: Books, kind: Kind)
    requires Affordable(w, b)
    ensures Affordable(w, Tried(w, b, kind).books) && Tried(w, b, kind).books.restartsUsed == b.restartsUsed
    decreases Remaining(w.policy.maxRecoveries, b.recoveriesUsed)
  {
    var script := w.scripts(b.attempts);
    if script.starts { HearAffords(script, 0, b.pending, w.policy.capabilities, b.restartsUsed, w.policy.maxRestarts); }
    var after := AfterSession(w, b, kind);
    if !script.refused && HeardIn(w, b, script).ending == Broken && Recoverable(w, script, after) {
      TriedAffords(w, after.(recoveriesUsed := after.recoveriesUsed + 1), Recovery);
    }
  }

  datatype Governance = Governance(books: Books, failed: bool)

  /** While an attempt ends asking for a restart, there is a restart. */
  function Continued(w: World, t: Attempted): Governance
    requires Affordable(w, t.books)
    decreases Remaining(w.policy.maxRestarts, t.books.restartsUsed)
  {
    if t.failed then Governance(t.books, true)
    else if t.restart && t.books.pending == Some(SafeRestart) then
      var next := t.books.(pending := None, restartsUsed := t.books.restartsUsed + 1);
      TriedAffords(w, next, Restart);
      Continued(w, Tried(w, next, Restart))
    else Governance(t.books.(pending := None), false)
  }

  lemma ContinuedOnce(w: World, t: Attempted)
    requires Affordable(w, t.books)
    ensures var next := t.books.(pending := None, restartsUsed := t.books.restartsUsed + 1);
            && Affordable(w, Tried(w, next, Restart).books)
            && Continued(w, t) ==
                 if t.failed then Governance(t.books, true)
                 else if t.restart && t.books.pending == Some(SafeRestart)
                 then Continued(w, Tried(w, next, Restart))
                 else Governance(t.books.(pending := None), false)
  {
    hide Tried;
    TriedAffords(w, t.books.(pending := None, restartsUsed := t.books.restartsUsed + 1), Restart);
  }

  /** A session with its recoveries and restarts. */
  function Governed(w: World, b: Books, kind: Kind): Governance
    requires Affordable(w, b)
  {
    TriedAffords(w, b, kind);
    Continued(w, Tried(w, b, kind))
  }

  /** The check stands as it is: verified, or nothing a repair could help. */
  predicate Settles(w: World, a: Answer) {
    a.state == Verified || a.raw == Verified || (a.state == NotChecked && !w.configured)
  }

  /** The verifier is asked a second time for the same candidate. */
  predicate AskedAgain(w: World, a: Answer, retried: bool) {
    !a.throws && !Settles(w, a) && a.retryUseful && !retried
  }

  function Recorded(a: Answer, digest: nat): Log {
    if a.throws then [] else [Check(a.state, digest)]
  }

  /** The checks a candidate leaves in the log, from the answer of number `n` on. */
  function CheckLog(w: World, n: nat, retried: bool, digest: nat): Log {
    Recorded(w.answers(n), digest)
    + (if AskedAgain(w, w.answers(n), retried) then Recorded(w.answers(n + 1), digest) else [])
  }

  predicate Throws(w: World, n: nat, retried: bool) {
    w.answers(n).throws || (AskedAgain(w, w.answers(n), retried) && w.answers(n + 1).throws)
  }

  /** Without a throw, the verdict stands: at once, or after the retry. */
  predicate Stands(w: World, n: nat, retried: bool) {
    var first, second := w.answers(n), w.answers(n + 1);
    Settles(w, first) ||
        (AskedAgain(w, first, retried) && (second.state == Verified || second.raw == Verified || second.unrepairable))
  }

  /** The run at the head of its loop. */
  datatype Round = Round(
    books: Books, checks: nat, captures: nat, repairs: nat, retried: bool, lastFailed: Option<nat>)

  datatype Closing = Unfunded | Lost | Threw | Judged

  datatype Played = Played(round: Round, closing: Closing)

  function AfterCheck(w: World, r: Round): Round {
    var again := AskedAgain(w, w.answers(r.checks), r.retried);
    r.(books := r.books.(log := r.books.log + CheckLog(w, r.checks, r.retried, w.digests(r.captures))),
       checks := r.checks + 1 + One(again), captures := r.captures + 1, retried := r.retried || again)
  }

  /** A repair is worth starting: attempts left, no worse result, a new candidate, budget. */
  predicate WorthRepair(w: World, r: Round, digest: nat) {
    && r.repairs < w.policy.maxRepairs && NotWorse(w.past, r.books.log) && r.lastFailed != Some(digest)
    && Authorized(w.policy.budget, Execution, Total(w.past, r.books.log, Execution))
  }

  /** Check, and repair while it is worth it. */
  function Play(w: World, r: Round): Played
    requires Affordable(w, r.books)
    decreases Remaining(w.policy.maxRepairs, r.repairs)
  {
    var digest, next := w.digests(r.captures), AfterCheck(w, r);
    if Throws(w, r.checks, r.retried) then Played(next, Threw)
    else if Stands(w, r.checks, r.retried) || !WorthRepair(w, next, digest) then Played(next, Judged)
    else
      GovernedAffords(w, next.books, Repair);
      var g := Governed(w, next.books, Repair);
      var repaired := next.(books := g.books, repairs := next.repairs + 1, lastFailed := Some(digest));
      if g.failed then Played(repaired, Lost) else Play(w, repaired)
  }

  lemma {:induction false} ContinuedAffords(w: World, t: Attempted)
    requires Affordable(w, t.books)
    ensures Affordable(w, Continued(w, t).books)
    decreases Remaining(w.policy.maxRestarts, t.books.restartsUsed)
  {
    hide Tried;
    if !t.failed && t.restart && t.books.pending == Some(SafeRestart) {
      var next := t.books.(pending := None, restartsUsed := t.books.restartsUsed + 1);
      TriedAffords(w, next, Restart);
      ContinuedAffords(w, Tried(w, next, Restart));
    }
  }

  lemma GovernedAffords(w: World, b: Books, kind: Kind)
    requires Affordable(w, b)
    ensures Affordable(w, Governed(w, b, kind).books)
  {
    hide Tried, Continued;
    TriedAffords(w, b, kind);
    ContinuedAffords(w, Tried(w, b, kind));
  }

  /** The whole run, from its first session on. */
  function Whole(w: World, b: Books, checks: nat, captures: nat): Played
    requires Affordable(w, b)
  {
    var start := Round(b, checks, captures, 0, false, None);
    if !Authorized(w.policy.budget, Execution, Total(w.past, b.log, Execution)) then Played(start, Unfunded)
    else
      GovernedAffords(w, b, First);
      var g := Governed(w, b, First);
      if g.failed then Played(start.(books := g.books), Lost) else Play(w, start.(books := g.books))
  }

  // ------------------------------------------------------------------- what every run keeps

  /** What a session with its recoveries leaves. */
  predicate SessionRan(w: World, b: Books, kind: Kind, t: Attempted) {
    && (t.restart ==> !t.failed) && b.log <= t.books.log
    && (!w.scripts(b.attempts).refused ==>
          b.log + [Session(kind)] + HeardIn(w, b, w.scripts(b.attempts)).charges <= t.books.log)
    && t.books.restartsUsed == b.restartsUsed
    && b.recoveriesUsed <= t.books.recoveriesUsed
    && t.books.recoveriesUsed - b.recoveriesUsed <= Remaining(w.policy.maxRecoveries, b.recoveriesUsed)
    && Grew(b.log, t.books.log, One(kind == First), One(kind == Repair), One(kind == Restart),
            t.books.recoveriesUsed - b.recoveriesUsed + One(kind == Recovery))
    && !EndsVerified(t.books.log)
    && (!t.failed ==>
          && Current(t.books.log).Some?
          && Repaired(t.books.log) == RepairedBy(b.log, kind)
          && Sessions(t.books.log, Repair) == Sessions(b.log, Repair) + One(kind == Repair))
    && (t.failed ==> StoppedAfter(w, t.books))
  }

  /** The candidate the latest repair was started for, once a session of this kind has started. */
  function RepairedBy(log: Log, kind: Kind): Option<nat> {
    if kind == Repair && log != [] && Last(log).Check? then Some(Last(log).digest) else Repaired(log)
  }

  /** The provider refused the last attempt, or it broke and could not be recovered. */
  predicate StoppedAfter(w: World, b: Books) {
    b.attempts > 0 && (w.scripts(b.attempts - 1).refused || !Recoverable(w, w.scripts(b.attempts - 1), b))
  }

  predicate MayStart(log: Log, kind: Kind) {
    !EndsVerified(log) && (kind == Repair ==> log != [] && Last(log).Check?)
  }

  lemma {:induction false} TriedRan(w: World, b: Books, kind: Kind)
    requires MayStart(b.log, kind)
    ensures SessionRan(w, b, kind, Tried(w, b, kind))
    decreases Remaining(w.policy.maxRecoveries, b.recoveriesUsed)
  {
    hide Tried, Sessions, Checks, Current, Repaired, EndsVerified, HearAll, Total, Authorized;
    TriedOnce(w, b, kind);
    var script, h := w.scripts(b.attempts), HeardIn(w, b, w.scripts(b.attempts));
    var after := b.(log := b.log + [Session(kind)] + h.charges, pending := h.pending, attempts := b.attempts + 1);
    HeardIsSession(b.log, kind, script, b.pending, w.policy.capabilities, b.restartsUsed, w.policy.maxRestarts);
    OnlySessionMeans(b.log, after.log, kind);
    if !script.refused && h.ending == Broken && Recoverable(w, script, after) {
      var next := after.(recoveriesUsed := after.recoveriesUsed + 1);
      TriedRan(w, next, Recovery);
    }
  }

  /** What a governed session leaves. */
  predicate GovernedRan(w: World, b: Books, kind: Kind, g: Governance) {
    && b.log <= g.books.log
    && b.recoveriesUsed <= g.books.recoveriesUsed && b.restartsUsed <= g.books.restartsUsed
    && g.books.recoveriesUsed - b.recoveriesUsed <= Remaining(w.policy.maxRecoveries, b.recoveriesUsed)
    && g.books.restartsUsed - b.restartsUsed <= Remaining(w.policy.maxRestarts, b.restartsUsed)
    && Grew(b.log, g.books.log, One(kind == First), One(kind == Repair),
            g.books.restartsUsed - b.restartsUsed + One(kind == Restart), g.books.recoveriesUsed - b.recoveriesUsed)
    && !EndsVerified(g.books.log)
    && (!g.failed ==>
          && Current(g.books.log).Some? && g.books.pending == None
          && Repaired(g.books.log) == RepairedBy(b.log, kind)
          && Sessions(g.books.log, Repair) == Sessions(b.log, Repair) + One(kind == Repair))
    && (g.failed ==> StoppedAfter(w, g.books))
  }

  lemma RanInTurn(w: World, b: Books, kind: Kind, t: Attempted, next: Books, g: Governance)
    requires kind != Recovery && SessionRan(w, b, kind, t) && Affordable(w, t.books) && !t.failed
    requires t.books.pending == Some(SafeRestart)
    requires next == t.books.(pending := None, restartsUsed := t.books.restartsUsed + 1)
    requires GovernedRan(w, next, Restart, g)
    ensures GovernedRan(w, b, kind, g)
  {
    hide Sessions, Checks, Current, Repaired, EndsVerified, Recoverable, HearAll;
  }

  lemma {:induction false} ContinuedRan(w: World, b: Books, kind: Kind)
    requires kind != Recovery && MayStart(b.log, kind) && Affordable(w, b)
    ensures GovernedRan(w, b, kind, Governed(w, b, kind))
    decreases Remaining(w.policy.maxRestarts, b.restartsUsed)
  {
    hide Tried, Sessions, Checks, Current, Repaired, EndsVerified, Recoverable, HearAll;
    TriedRan(w, b, kind);
    TriedAffords(w, b, kind);
    var t := Tried(w, b, kind);
    if !t.failed && t.restart && t.books.pending == Some(SafeRestart) {
      var next := t.books.(pending := None, restartsUsed := t.books.restartsUsed + 1);
      ContinuedRan(w, next, Restart);
      RanInTurn(w, b, kind, t, next, Governed(w, next, Restart));
    }
  }

  /** How the log of a governed session begins: the session with its charges and, if it leads to one, the restart. */
  function Opening(w: World, b: Books, kind: Kind): Log {
    var script := w.scripts(b.attempts);
    if script.refused then b.log
    else
      var after, ending := AfterSession(w, b, kind), HeardIn(w, b, script).ending;
      if ending == Restarted && after.pending == Some(SafeRestart) && !w.scripts(after.attempts).refused
      then after.log + [Session(Restart)] else after.log
  }

  lemma OpeningRuns(w: World, b: Books, kind: Kind)
    requires kind != Recovery && MayStart(b.log, kind) && Affordable(w, b)
    ensures Opening(w, b, kind) <= Governed(w, b, kind).books.log
  {
    hide Tried, Sessions, Checks, Current, Repaired, EndsVerified, Recoverable, HearAll, Grew;
    TriedRan(w, b, kind);
    TriedAffords(w, b, kind);
    TriedOnce(w, b, kind);
    ContinuedRan(w, b, kind);
    var t := Tried(w, b, kind);
    if !t.failed && t.restart && t.books.pending == Some(SafeRestart) {
      var next := t.books.(pending := None, restartsUsed := t.books.restartsUsed + 1);
      ContinuedRan(w, next, Restart);
      TriedRan(w, next, Restart);
      TriedAffords(w, next, Restart);
      ContinuedExtends(w, Tried(w, next, Restart));
    }
  }

  lemma {:induction false} ContinuedExtends(w: World, t: Attempted)
    requires Affordable(w, t.books) && !EndsVerified(t.books.log)
    ensures t.books.log <= Continued(w, t).books.log
    decreases Remaining(w.policy.maxRestarts, t.books.restartsUsed)
  {
    hide Tried, EndsVerified, Grew, Recoverable, HearAll;
    if !t.failed && t.restart && t.books.pending == Some(SafeRestart) {
      var next := t.books.(pending := None, restartsUsed := t.books.restartsUsed + 1);
      TriedRan(w, next, Restart);
      TriedAffords(w, next, Restart);
      ContinuedExtends(w, Tried(w, next, Restart));
    }
  }

  /** What checking a candidate leaves. */
  predicate CheckRan(w: World, r: Round, next: Round) {
    && SameSessions(r.books.log, next.books.log) && r.books.log <= next.books.log
    && |Checks(next.books.log)| - |Checks(r.books.log)| <= next.checks - r.checks ==
       1 + One(next.retried) - One(r.retried)
    && (r.retried ==> next.retried)
    && (Throws(w, r.checks, r.retried) ==>
          !EndsVerified(next.books.log) && next.checks > 0 && w.answers(next.checks - 1).throws)
    && (!Throws(w, r.checks, r.retried) ==>
          && next.books.log != [] && Last(next.books.log).Check? && |Checks(next.books.log)| > 0
          && Last(next.books.log).digest == w.digests(r.captures)
          && (!Stands(w, r.checks, r.retried) ==> !EndsVerified(next.books.log))
          && (Stands(w, r.checks, r.retried) ==> EndsVerified(next.books.log) || Beyond(w, w.answers(next.checks - 1))))
  }

  /** A check that no repair could help. */
  predicate Beyond(w: World, a: Answer) {
    a.raw == Verified || a.unrepairable || (a.state == NotChecked && !w.configured)
  }

  lemma RecordedMeans(log: Log, a: Answer, digest: nat)
    requires !EndsVerified(log)
    ensures var after := log + Recorded(a, digest);
      && SameSessions(log, after)
      && Checks(after) == Checks(log) + (if a.throws then [] else [a.state])
      && (a.throws ==> !EndsVerified(after))
      && (!a.throws ==> Last(after) == Check(a.state, digest) && (EndsVerified(after) <==> a.state == Verified))
  {
    hide Sessions;
    if a.throws {
      assert log + Recorded(a, digest) == log;
    } else {
      CheckCounts(log, Check(a.state, digest));
    }
  }

  lemma CheckRuns(w: World, r: Round)
    requires !EndsVerified(r.books.log)
    ensures CheckRan(w, r, AfterCheck(w, r))
  {
    hide Sessions, Checks, Repaired, Current, EndsVerified, Recorded;
    var first, second, digest := w.answers(r.checks), w.answers(r.checks + 1), w.digests(r.captures);
    RecordedMeans(r.books.log, first, digest);
    var once := r.books.log + Recorded(first, digest);
    if AskedAgain(w, first, r.retried) {
      RecordedMeans(once, second, digest);
      assert once + Recorded(second, digest) == r.books.log + CheckLog(w, r.checks, r.retried, digest);
    } else {
      assert once == r.books.log + CheckLog(w, r.checks, r.retried, digest);
    }
  }

  /** The head of the loop: a candidate is there, unverified, and the counters agree with the log. */
  predicate AtHead(w: World, r: Round) {
    && Affordable(w, r.books) && !EndsVerified(r.books.log) && Current(r.books.log).Some?
    && r.lastFailed == Repaired(r.books.log)
    && Sessions(r.books.log, Repair) == r.repairs <= w.policy.maxRepairs
  }

  /** What the loop leaves, counted from one of its heads. */
  predicate PlayRan(w: World, r: Round, p: Played) {
    var log, books := p.round.books.log, p.round.books;
    && r.books.log <= log
    && r.checks <= p.round.checks <= r.checks + (w.policy.maxRepairs - r.repairs) + 1 + One(!r.retried)
    && |Checks(log)| - |Checks(r.books.log)| <= p.round.checks - r.checks
    && Sessions(log, First) <= Sessions(r.books.log, First) && Sessions(log, Repair) <= w.policy.maxRepairs
    && r.books.restartsUsed <= books.restartsUsed && r.books.recoveriesUsed <= books.recoveriesUsed
    && books.restartsUsed - r.books.restartsUsed <= Remaining(w.policy.maxRestarts, r.books.restartsUsed)
    && books.recoveriesUsed - r.books.recoveriesUsed <= Remaining(w.policy.maxRecoveries, r.books.recoveriesUsed)
    && Sessions(log, Restart) - Sessions(r.books.log, Restart) <= books.restartsUsed - r.books.restartsUsed
    && Sessions(log, Recovery) - Sessions(r.books.log, Recovery) <= books.recoveriesUsed - r.books.recoveriesUsed
    && Closed(w, p)
  }

  /** How the run ended, read off the answers and the log. */
  predicate Closed(w: World, p: Played) {
    var log := p.round.books.log;
    match p.closing
    case Unfunded => !EndsVerified(log) && !Authorized(w.policy.budget, Execution, Total(w.past, log, Execution))
    case Lost => !EndsVerified(log) && StoppedAfter(w, p.round.books)
    case Threw => !EndsVerified(log) && p.round.checks > 0 && w.answers(p.round.checks - 1).throws
    case Judged =>
      && log != [] && Last(log).Check? && |Checks(log)| > 0 && p.round.checks > 0
      && (EndsVerified(log) || Unrepairable(w, p.round))
  }

  /** Why a checked candidate that is not verified is not repaired. */
  predicate Unrepairable(w: World, r: Round)
    requires r.checks > 0
  {
    var log := r.books.log;
    || Beyond(w, w.answers(r.checks - 1))
    || Sessions(log, Repair) == w.policy.maxRepairs || !NotWorse(w.past, log)
    || (log != [] && Last(log).Check? && Repaired(log) == Some(Last(log).digest))
    || !Authorized(w.policy.budget, Execution, Total(w.past, log, Execution))
  }

  /** One more repair before what the rest of the loop leaves. */
  lemma PlayInTurn(w: World, r: Round, next: Round, g: Governance, head: Round, p: Played)
    requires AtHead(w, r) && CheckRan(w, r, next) && next.repairs == r.repairs < w.policy.maxRepairs
    requires next.books == r.books.(log := next.books.log)
    requires !Throws(w, r.checks, r.retried) && GovernedRan(w, next.books, Repair, g)
    requires head == next.(books := g.books, repairs := next.repairs + 1, lastFailed := Some(w.digests(r.captures)))
    requires if g.failed then p == Played(head, Lost) else PlayRan(w, head, p)
    ensures PlayRan(w, r, p)
  {
    hide Sessions, Checks, Current, Repaired, EndsVerified, Throws, Stands, Total, StoppedAfter, Unrepairable,
        Authorized;
  }

  lemma {:induction false} PlayRuns(w: World, r: Round)
    requires AtHead(w, r)
    ensures PlayRan(w, r, Play(w, r))
    decreases Remaining(w.policy.maxRepairs, r.repairs)
  {
    hide Sessions, Checks, Current, Repaired, EndsVerified, Throws, Stands, Total, StoppedAfter, NotWorse, Authorized;
    hide Governed, CheckLog;
    CheckRuns(w, r);
    var digest, next := w.digests(r.captures), AfterCheck(w, r);
    if !Throws(w, r.checks, r.retried) && !Stands(w, r.checks, r.retried) && WorthRepair(w, next, digest) {
      GovernedAffords(w, next.books, Repair);
      ContinuedRan(w, next.books, Repair);
      var g := Governed(w, next.books, Repair);
      var head := next.(books := g.books, repairs := next.repairs + 1, lastFailed := Some(digest));
      if !g.failed {
        PlayRuns(w, head);
        PlayInTurn(w, r, next, g, head, Play(w, head));
      } else {
        PlayInTurn(w, r, next, g, head, Played(head, Lost));
      }
    }
  }

  /** What a whole run leaves. */
  predicate WholeRan(w: World, b: Books, checks: nat, p: Played) {
    var log := p.round.books.log;
    && checks <= p.round.checks <= checks + w.policy.maxRepairs + 2
    && |Checks(log)| <= w.policy.maxRepairs + 2
    && Sessions(log, First) <= 1 && Sessions(log, Repair) <= w.policy.maxRepairs
    && Sessions(log, Restart) <= Remaining(w.policy.maxRestarts, b.restartsUsed)
    && Sessions(log, Recovery) <= Remaining(w.policy.maxRecoveries, b.recoveriesUsed)
    && Closed(w, p)
    && (Authorized(w.policy.budget, Execution, Total(w.past, b.log, Execution)) ==> Opening(w, b, First) <= log)
  }

  lemma WholeRuns(w: World, b: Books, checks: nat, captures: nat)
    requires b.log == [] && Affordable(w, b)
    ensures WholeRan(w, b, checks, Whole(w, b, checks, captures))
  {
    hide Total, StoppedAfter, Unrepairable, Authorized, Governed, Play, Opening;
    assert forall k :: Sessions(b.log, k) == 0;
    assert Checks(b.log) == [] && !EndsVerified(b.log) && Repaired(b.log) == None;
    hide Sessions, Checks, Current, Repaired, EndsVerified;
    if Authorized(w.policy.budget, Execution, Total(w.past, b.log, Execution)) {
      ContinuedRan(w, b, First);
      OpeningRuns(w, b, First);
      GovernedAffords(w, b, First);
      var g := Governed(w, b, First);
      if !g.failed {
        PlayRuns(w, Round(g.books, checks, captures, 0, false, None));
      }
    }
  }

  /**
   * The environment retry is never skipped: a first session that ends by itself, a check that fails in
   * a way worth asking again, and a second answer that verifies make a verified run, whatever the
   * repair policy.
   */
  lemma RetryCompletes(w: World, b: Books, checks: nat, captures: nat)
    requires b.log == [] && Affordable(w, b)
    requires Authorized(w.policy.budget, Execution, Total(w.past, b.log, Execution))
    requires !Governed(w, b, First).failed
    requires AskedAgain(w, w.answers(checks), false)
    requires !w.answers(checks + 1).throws && w.answers(checks + 1).state == Verified
    ensures var p := Whole(w, b, checks, captures);
            p.closing == Judged && p.round.checks == checks + 2 && EndsVerified(p.round.books.log)
  {
    hide Governed, Total, Authorized;
    GovernedAffords(w, b, First);
    var r := Round(Governed(w, b, First).books, checks, captures, 0, false, None);
    assert Play(w, r) == Played(AfterCheck(w, r), Judged);
    var log := AfterCheck(w, r).books.log;
    assert Last(log) == Check(Verified, w.digests(captures));
  }

  /** The three ways a check goes: no answer, one answer that is enough, or a second one. */
  lemma CheckCases(w: World, n: nat, retried: bool, digest: nat)
    ensures var first, second := w.answers(n), w.answers(n + 1);
      var settles := first.state == Verified || first.raw == Verified || (first.state == NotChecked && !w.configured);
      var again := !first.throws && !settles && first.retryUseful && !retried;
      && (AskedAgain(w, first, retried) <==> again)
      && (first.throws ==> Throws(w, n, retried) && CheckLog(w, n, retried, digest) == [])
      && (!first.throws && !again ==>
            && !Throws(w, n, retried) && (Stands(w, n, retried) <==> settles)
            && CheckLog(w, n, retried, digest) == [Check(first.state, digest)])
      && (again && second.throws ==>
            Throws(w, n, retried) && CheckLog(w, n, retried, digest) == [Check(first.state, digest)])
      && (again && !second.throws ==>
            && !Throws(w, n, retried)
            && (Stands(w, n, retried) <==> second.state == Verified || second.raw == Verified || second.unrepairable)
            && CheckLog(w, n, retried, digest) == [Check(first.state, digest)] + [Check(second.state, digest)])
  {
  }

  lemma FirstHead(w: World, b: Books, g: Governance, checks: nat, captures: nat)
    requires b.log == [] && GovernedRan(w, b, First, g) && !g.failed
    ensures AtHead(w, Round(g.books, checks, captures, 0, false, None))
  {
  }

  lemma AtHeadMeans(w: World, r: Round)
    requires AtHead(w, r)
    ensures Affordable(w, r.books) && !EndsVerified(r.books.log) && Current(r.books.log).Some?
  {
  }

  lemma CheckRanMeans(w: World, r: Round, next: Round)
    requires AtHead(w, r) && CheckRan(w, r, next)
    ensures Sessions(next.books.log, Repair) == r.repairs && Repaired(next.books.log) == r.lastFailed
    ensures !Throws(w, r.checks, r.retried) ==>
              next.books.log != [] && Last(next.books.log).Check? &&
                  Last(next.books.log).digest == w.digests(r.captures)
    ensures !Throws(w, r.checks, r.retried) && !Stands(w, r.checks, r.retried) ==> !EndsVerified(next.books.log)
  {
    hide Sessions, Repaired, Current, Checks, EndsVerified, Throws, Stands;
  }

  lemma NextHead(w: World, r: Round, g: Governance)
    requires AtHead(w, r) && !Throws(w, r.checks, r.retried) && !Stands(w, r.checks, r.retried)
    requires r.repairs < w.policy.maxRepairs && GovernedRan(w, AfterCheck(w, r).books, Repair, g) && !g.failed
    ensures var next := AfterCheck(w, r);
            AtHead(w, next.(books := g.books, repairs := next.repairs + 1, lastFailed := Some(w.digests(r.captures))))
  {
    hide Sessions, Repaired, Current, Checks, EndsVerified, Throws, Stands, CheckLog, StoppedAfter, Grew;
    CheckRuns(w, r);
    CheckRanMeans(w, r, AfterCheck(w, r));
  }

  lemma JudgedMeans(log: Log)
    requires log != [] && Last(log).Check?
    ensures EndsVerified(log) <==> Last(log).state == Verified
  {
  }

  lemma PlayOnce(w: World, r: Round)
    requires Affordable(w, r.books)
    ensures var digest, next := w.digests(r.captures), AfterCheck(w, r);
            && Affordable(w, next.books)
            && var g := Governed(w, next.books, Repair);
               var head := next.(books := g.books, repairs := next.repairs + 1, lastFailed := Some(digest));
               && Affordable(w, g.books)
               && Play(w, r) ==
                    if Throws(w, r.checks, r.retried) then Played(next, Threw)
                    else if Stands(w, r.checks, r.retried) || !WorthRepair(w, next, digest) then Played(next, Judged)
                    else if g.failed then Played(head, Lost) else Play(w, head)
  {
    hide Governed, Throws, Stands, WorthRepair, CheckLog;
    GovernedAffords(w, AfterCheck(w, r).books, Repair);
  }

  class Execution {
    const policy: Policy
    const past: Past
    const scripts: nat -> Script
    const answers: nat -> Answer
    const digests: nat -> nat
    const configured: bool

    var attempts: nat
    var checks: nat
    var captures: nat
    var log: Log
    var model: real
    var recovery: real
    var recoveriesUsed: nat
    var restartsUsed: nat
    var pending: Option<Method>

    constructor (policy: Policy, past: Past, scripts: nat -> Script, answers: nat -> Answer, digests: nat -> nat,
                 configured: bool, recoveriesUsed: nat, restartsUsed: nat)
      ensures this.policy == policy && this.past == past && this.configured == configured
      ensures this.scripts == scripts && this.answers == answers && this.digests == digests
      ensures this.recoveriesUsed == recoveriesUsed && this.restartsUsed == restartsUsed
      ensures log == [] && Valid() && attempts == 0 && checks == 0 && pending == None
    {
      this.policy, this.past, this.scripts, this.answers, this.digests, this.configured :=
        policy, past, scripts, answers, digests, configured;
      this.recoveriesUsed, this.restartsUsed := recoveriesUsed, restartsUsed;
      model, recovery := past.execution, past.recovery;
      attempts, checks, captures, log, pending := 0, 0, 0, [], None;
    }

    /** The books match the log, the log is lawful, and a planned restart can still be afforded. */
    predicate Valid()
      reads this
    {
      && Lawful(policy.budget, past, log)
      && model == Total(past, log, Category.Execution)
      && recovery == Total(past, log, Reserve)
      && (pending == Some(SafeRestart) ==> restartsUsed < policy.maxRestarts)
    }

    function Here(): World {
      World(policy, past, scripts, answers, digests, configured)
    }

    function Now(): Books
      reads this
    {
      Books(log, recoveriesUsed, restartsUsed, pending, attempts)
    }

    method Record(e: Event)
      requires Lawful(policy.budget, past, log) && Allowed(policy.budget, past, log, e)
      modifies this`log
      ensures log == old(log) + [e] && Lawful(policy.budget, past, log)
    {
      Grown(log, e);
      log := log + [e];
    }

    method Ask(r: Request)
      requires Valid()
      modifies this`pending
      ensures Valid() && pending == Some(Pended(r, policy.capabilities, restartsUsed, policy.maxRestarts))
    {
      pending := Some(Pended(r, policy.capabilities, restartsUsed, policy.maxRestarts));
    }

    /** What a session would make of a script, with the policy pending now. */
    function HearNow(script: Script): Heard
      reads this
    {
      HearAll(script, pending, policy.capabilities, restartsUsed, policy.maxRestarts)
    }

    /** One reported cost, charged to the category of the session's kind. */
    method ChargeUsage(cost: real, kind: Kind)
      requires Valid() && Current(log) == Some(kind) && !EndsVerified(log)
      modifies this`log, this`model, this`recovery
      ensures Valid() && log == old(log) + ChargeOf(Usage(cost)) && Current(log) == Some(kind) && !EndsVerified(log)
    {
      var charge := Sanitized(cost);
      if charge.Some? {
        Grown(log, Charge(charge.value));
        Record(Charge(charge.value));
        if kind == Recovery { recovery := recovery + charge.value; } else { model := model + charge.value; }
      }
    }

    /** Requests that land while the session is being cancelled. */
    method AskAll(requests: seq<Request>)
      requires Valid()
      modifies this`pending
      ensures Valid() && pending == Late(requests, old(pending), policy.capabilities, restartsUsed, policy.maxRestarts)
    {
      var j := 0;
      while j < |requests|
        invariant 0 <= j <= |requests| && Valid()
        invariant pending == Late(requests[..j], old(pending), policy.capabilities, restartsUsed, policy.maxRestarts)
      {
        Ask(requests[j]);
        j := j + 1;
      }
      assert requests[..j] == requests;
    }

    /** One attempt: a session is started, and its events are followed until it ends, fails or is restarted. */
    method RunAgentAttempt(script: Script, kind: Kind) returns (failed: bool, restart: bool)
      requires Valid() && Allowed(policy.budget, past, log, Session(kind))
      modifies this`log, this`model, this`recovery, this`pending
      ensures Valid()
      ensures log == old(log) + [Session(kind)] + old(HearNow(script)).charges &&
              pending == old(HearNow(script)).pending
      ensures failed <==> old(HearNow(script)).ending == Broken
      ensures restart <==> old(HearNow(script)).ending == Restarted
    {
      hide Lawful, Allowed, ChargeOf, PendingAfter, Late, EndsVerified, Spent, Current, Hear, HearAll, Joined;
      failed, restart := false, false;
      SessionOpens(log, kind);
      ghost var heard, begun, got := HearNow(script), log + [Session(kind)], [];
      HeardStart(heard, script, pending, policy.capabilities, restartsUsed, policy.maxRestarts);
      Record(Session(kind));
      assert begun + [] == begun;
      if !script.starts { return true, false; }
      var i := 0;
      while i < |script.items|
        invariant 0 <= i <= |script.items|
        invariant Valid() && Current(log) == Some(kind) && !EndsVerified(log) && log == begun + got
        invariant heard == Joined(got, Hear(script, i, pending, policy.capabilities, restartsUsed, policy.maxRestarts))
      {
        var item := script.items[i];
        HeardItem(heard, got, script, i, pending, policy.capabilities, restartsUsed, policy.maxRestarts);
        if item.AgentError? { return true, false; }
        Follow(item, kind);
        assert begun + got + ChargeOf(item) == begun + (got + ChargeOf(item));
        got := got + ChargeOf(item);
        i := i + 1;
        if !item.Operator? && pending == Some(SafeRestart) {
          AskAll(script.whileCancelling);
          return false, true;
        }
      }
      HeardEnd(heard, got, script, pending, policy.capabilities, restartsUsed, policy.maxRestarts);
      failed := script.breaks;
    }

    /** What an event does to the books and to the pending policy. */
    method Follow(item: Item, kind: Kind)
      requires Valid() && Current(log) == Some(kind) && !EndsVerified(log) && !item.AgentError?
      modifies this`log, this`model, this`recovery, this`pending
      ensures Valid() && Current(log) == Some(kind) && !EndsVerified(log) && log == old(log) + ChargeOf(item)
      ensures pending == PendingAfter(item, old(pending), policy.capabilities, restartsUsed, policy.maxRestarts)
    {
      assert log + [] == log;
      match item {
        case Usage(cost) => ChargeUsage(cost, kind);
        case Working(decided) => if decided.Some? { Ask(decided.value); }
        case Acknowledge(matches) => if pending == Some(LiveUpdate) && matches { pending := None; }
        case Operator(request) => Ask(request);
      }
    }

    lemma NotEnded(kind: Kind)
      requires Allowed(policy.budget, past, log, Session(kind))
      ensures MayStart(log, kind)
    {
    }

    lemma MayRestart()
      requires !EndsVerified(log) && Current(log).Some?
      ensures Allowed(policy.budget, past, log, Session(Restart))
    {
    }

    lemma MayRecover()
      requires Valid() && !EndsVerified(log)
      ensures Authorized(policy.budget, Reserve, recovery) ==> Allowed(policy.budget, past, log, Session(Recovery))
      ensures recovery == Total(past, log, Reserve)
    {
    }

    /** A session and its bounded automatic recoveries. */
    method RunAgentAttemptWithRecovery(kind: Kind) returns (failed: bool, restart: bool)
      requires Valid() && kind != Recovery && Allowed(policy.budget, past, log, Session(kind))
      modifies this`log, this`model, this`recovery, this`pending, this`attempts, this`recoveriesUsed
      ensures Valid()
      ensures Attempted(Now(), failed, restart) == old(Tried(Here(), Now(), kind))
      ensures SessionRan(Here(), old(Now()), kind, Attempted(Now(), failed, restart))
    {
      hide Lawful, Allowed, Spent, Sessions, Checks, Current, Repaired, OnlySession, EndsVerified, Total, HearAll;
      hide Tried, AfterSession, Authorized, SessionRan, Grew;
      NotEnded(kind);
      ghost var tried := Tried(Here(), Now(), kind);
      TriedRan(Here(), Now(), kind);
      var current := kind;
      while true
        invariant Valid() && Allowed(policy.budget, past, log, Session(current))
        invariant tried == Tried(Here(), Now(), current)
        decreases Remaining(policy.maxRecoveries, recoveriesUsed)
      {
        var script := scripts(attempts);
        TriedOnce(Here(), Now(), current);
        attempts := attempts + 1;
        if script.refused { return true, false; }
        ghost var entering := log;
        HeardIsSession(log, current, script, pending, policy.capabilities, restartsUsed, policy.maxRestarts);
        NotEnded(current);
        failed, restart := RunAgentAttempt(script, current);
        OnlySessionMeans(entering, log, current);
        MayRecover();
        if !failed { return; }
        if script.cancelled || !script.retryable || recoveriesUsed >= policy.maxRecoveries { return; }
        if !Authorized(policy.budget, Reserve, recovery) { return; }
        recoveriesUsed := recoveriesUsed + 1;
        current := Recovery;
      }
    }

    /** A session under policy control, with its bounded restarts. */
    method RunGovernedSession(kind: Kind) returns (failed: bool)
      requires Valid() && (kind == First || kind == Repair) && Allowed(policy.budget, past, log, Session(kind))
      modifies this`log, this`model, this`recovery, this`pending, this`attempts, this`recoveriesUsed, this`restartsUsed
      ensures Valid()
      ensures Governance(Now(), failed) == old(Governed(Here(), Now(), kind))
      ensures GovernedRan(Here(), old(Now()), kind, Governance(Now(), failed))
      ensures old(Opening(Here(), Now(), kind)) <= log
    {
      hide Lawful, Spent, Sessions, Checks, Current, Repaired, Total, Tried, Continued, GovernedRan, Opening, Grew;
      hide EndsVerified, Recoverable, StoppedAfter, HearAll;
      NotEnded(kind);
      ghost var governed := Governed(Here(), Now(), kind);
      ContinuedRan(Here(), Now(), kind);
      OpeningRuns(Here(), Now(), kind);
      TriedAffords(Here(), Now(), kind);
      var restart;
      failed, restart := RunAgentAttemptWithRecovery(kind);
      while !failed && restart && pending == Some(SafeRestart)
        invariant Valid() && !EndsVerified(log) && (!failed ==> Current(log).Some?)
        invariant governed == Continued(Here(), Attempted(Now(), failed, restart))
        decreases Remaining(policy.maxRestarts, restartsUsed), restart
      {
        ContinuedOnce(Here(), Attempted(Now(), failed, restart));
        pending := None;
        restartsUsed := restartsUsed + 1;
        MayRestart();
        failed, restart := RunAgentAttemptWithRecovery(Restart);
      }
      ContinuedOnce(Here(), Attempted(Now(), failed, restart));
      if !failed { pending := None; }
    }

    /** A verifier call: the fenced state is what the run records. */
    method Verify(digest: nat) returns (answer: Answer)
      requires Valid() && Current(log).Some? && !EndsVerified(log)
      modifies this`log, this`checks
      ensures Valid()
      ensures checks == old(checks) + 1 && answer == answers(old(checks))
      ensures answer.throws ==> log == old(log)
      ensures !answer.throws ==>
              log == old(log) + [Check(answer.state, digest)] && Checked(old(log), log, answer.state, digest)
    {
      answer := answers(checks);
      checks := checks + 1;
      if answer.throws { return; }
      CheckCounts(log, Check(answer.state, digest));
      Grown(log, Check(answer.state, digest));
      Record(Check(answer.state, digest));
    }

    lemma Fresh()
      requires Valid() && log == []
      ensures Authorized(policy.budget, Category.Execution, model) ==> Allowed(policy.budget, past, log, Session(First))
    {
    }

    /** A check of the captured candidate, with the run's one environment retry if it is still there. */
    method CheckCandidate(digest: nat, before: bool) returns (verdict: Verdict, retried: bool)
      requires Valid() && Current(log).Some? && !EndsVerified(log)
      modifies this`log, this`checks
      ensures Valid()
      ensures log == old(log) + old(CheckLog(Here(), checks, before, digest))
      ensures retried <==> before || old(AskedAgain(Here(), answers(checks), before))
      ensures checks == old(checks) + 1 + One(old(AskedAgain(Here(), answers(checks), before)))
      ensures verdict == Thrown <==> old(Throws(Here(), checks, before))
      ensures verdict == Settled <==> old(!Throws(Here(), checks, before) && Stands(Here(), checks, before))
      ensures verdict == Repairing <==> old(!Throws(Here(), checks, before) && !Stands(Here(), checks, before))
    {
      hide Lawful, Sessions, Checks, Current, Repaired, NotWorse, EndsVerified, Total, Authorized;
      hide CheckLog, Throws, Stands, AskedAgain, Recorded, Settles;
      retried := before;
      ghost var w, n := Here(), checks;
      var answer := Verify(digest);
      CheckCases(w, n, before, digest);
      assert answer.throws ==> log == old(log) + [];
      if answer.throws { return Thrown, retried; }
      if answer.state == Verified || answer.raw == Verified || (answer.state == NotChecked && !configured) {
        return Settled, retried;
      }
      if answer.retryUseful && !retried {
        retried := true;
        ghost var once := log;
        answer := Verify(digest);
        assert once + [] == once && old(log) + ([Check(w.answers(n).state, digest)] + [Check(answer.state, digest)])
               == old(log) + [Check(w.answers(n).state, digest)] + [Check(answer.state, digest)];
        if answer.throws { return Thrown, retried; }
        if answer.state == Verified || answer.raw == Verified || answer.unrepairable { return Settled, retried; }
      }
      return Repairing, retried;
    }

    /** The last look before a repair: attempts left, no worse result, a new candidate, budget. */
    method Repairable(repairs: nat, lastFailed: Option<nat>, digest: nat) returns (repairable: bool)
      requires Valid() && log != [] && Last(log).Check? && Last(log).digest == digest && !EndsVerified(log)
      requires lastFailed == Repaired(log) && Sessions(log, Repair) == repairs <= policy.maxRepairs
      ensures repairable <==>
        && repairs < policy.maxRepairs && NotWorse(past, log) && lastFailed != Some(digest)
        && Authorized(policy.budget, Category.Execution, Total(past, log, Category.Execution))
      ensures repairable ==> Allowed(policy.budget, past, log, Session(Repair))
    {
      var recorded := past.checks + Checks(log);
      var worse := |recorded| >= 2 && Severity(recorded[|recorded| - 1]) > Severity(recorded[|recorded| - 2]);
      repairable := !(repairs >= policy.maxRepairs || worse || lastFailed == Some(digest)
                      || !Authorized(policy.budget, Category.Execution, model));
    }

    /** The whole loop; `interrupted` is a cancellation or a failing write seen after the last check. */
    method Execute(interrupted: bool) returns (outcome: Outcome)
      requires Valid() && log == [] && pending == None
      modifies this
      ensures Valid()
      ensures var p := old(Whole(Here(), Now(), checks, captures));
        && Now() == p.round.books && checks == p.round.checks && captures == p.round.captures
        && WholeRan(Here(), old(Now()), old(checks), p)
        && (outcome == Completed <==> !interrupted && p.closing == Judged && EndsVerified(log))
        && (outcome == FailedRun <==> !interrupted && p.closing == Judged && !EndsVerified(log))
        && (outcome == Paused <==> interrupted || p.closing != Judged)
      ensures EndsVerified(log) && !interrupted ==> outcome == Completed
      ensures |Checks(log)| <= policy.maxRepairs + 2 && checks - old(checks) <= policy.maxRepairs + 2
      ensures Sessions(log, First) <= 1 && Sessions(log, Repair) <= policy.maxRepairs
      ensures Sessions(log, Restart) <= Remaining(policy.maxRestarts, old(restartsUsed))
      ensures Sessions(log, Recovery) <= Remaining(policy.maxRecoveries, old(recoveriesUsed))
    {
      hide Lawful, Allowed, Sessions, Checks, Current, Repaired, NotWorse, Total, Authorized, Governed, Play;
      hide CheckLog, Throws, Stands, EndsVerified, Opening, GovernedRan, Unrepairable, StoppedAfter;
      Fresh();
      ghost var w, whole := Here(), Whole(Here(), Now(), checks, captures);
      WholeRuns(w, Now(), checks, captures);
      assert model == Total(past, log, Category.Execution);
      if !Authorized(policy.budget, Category.Execution, model) { return Paused; }
      var failed := RunGovernedSession(First);
      if failed { return Paused; }
      FirstHead(w, old(Now()), Governance(Now(), failed), checks, captures);
      var repairs: nat, retried, lastFailed: Option<nat> := 0, false, None;
      while true
        invariant Valid() && AtHead(w, Round(Now(), checks, captures, repairs, retried, lastFailed))
        invariant whole == Play(w, Round(Now(), checks, captures, repairs, retried, lastFailed))
        decreases policy.maxRepairs - repairs
      {
        var digest := digests(captures);
        ghost var round := Round(Now(), checks, captures, repairs, retried, lastFailed);
        PlayOnce(w, round);
        AtHeadMeans(w, round);
        captures := captures + 1;
        var verdict;
        verdict, retried := CheckCandidate(digest, retried);
        CheckRuns(w, round);
        ghost var next := AfterCheck(w, round);
        assert next == Round(Now(), checks, captures, repairs, retried, lastFailed);
        CheckRanMeans(w, round, next);
        if verdict == Thrown { return Paused; }
        if verdict == Settled { break; }
        var repairable := Repairable(repairs, lastFailed, digest);
        if !repairable { break; }
        repairs := repairs + 1;
        lastFailed := Some(digest);
        failed := RunGovernedSession(Repair);
        if failed { return Paused; }
        NextHead(w, round, Governance(Now(), failed));
      }
      JudgedMeans(log);
      var last := Last(log);
      if interrupted { return Paused; }
      outcome := if last.state == Verified then Completed else FailedRun;
    }
  }

  // -------------------------------------------------------------- what a lawful log rules out

  lemma {:induction false} LawfulThroughout(b: Budget, past: Past, log: Log, i: nat)
    requires Lawful(b, past, log) && i < |log|
    ensures Lawful(b, past, log[..i]) && Allowed(b, past, log[..i], log[i])
  {
    hide Allowed;
    if i < |log| - 1 {
      LawfulThroughout(b, past, Init(log), i);
      assert Init(log)[..i] == log[..i];
    }
  }

  /** Nothing is started, charged or checked after a verified check. */
  lemma {:induction false} VerifiedIsLast(b: Budget, past: Past, log: Log, i: nat)
    requires Lawful(b, past, log) && i < |log| && log[i].Check? && log[i].state == Verified
    ensures i == |log| - 1
  {
    if i + 1 < |log| {
      LawfulThroughout(b, past, log, i + 1);
    }
  }

  /**
   * Under a hard limit a first or repair session starts only while the execution share is not
   * spent, a recovery only while the recovery share is not; a restart asks for neither.
   */
  lemma HardReserveIsKept(b: Budget, past: Past, log: Log, i: nat)
    requires Lawful(b, past, log) && i < |log| && log[i].Session? && b.hard && b.limit.Some?
    ensures log[i].kind == First || log[i].kind == Repair ==>
              Total(past, log[..i], Execution) < b.limit.value * b.shares.execution
    ensures log[i].kind == Recovery ==> Total(past, log[..i], Reserve) < b.limit.value * b.shares.recovery
  {
    LawfulThroughout(b, past, log, i);
  }

  /** The share a session of this kind draws on. */
  function Drawn(kind: Kind): Category { if kind == Recovery then Reserve else Execution }

  /** Under a hard limit, a session started with its share spent is a policy restart. */
  lemma SpentStartIsRestart(b: Budget, past: Past, log: Log, i: nat)
    requires Lawful(b, past, log) && i < |log| && log[i].Session? && b.hard && b.limit.Some?
    requires Total(past, log[..i], Drawn(log[i].kind)) >= Allocated(b, Drawn(log[i].kind)).value
    ensures log[i].kind == Restart
  {
    HardReserveIsKept(b, past, log, i);
  }

  // A hard limit of which the first session spends all, and then asks for a broader mode.
  const TIGHT := Policy(0, 0, 1, Capabilities(false, true), Budget(true, Some(10.0), Shares(0.6, 0.15)))
  const SPENDER := Script(false, true, [Usage(10.0), Working(Some(Request(true, false)))], false, [], false, false)

  /** A concrete run whose restart starts although the execution share is spent. */
  method RestartPastReserve() returns (run: Execution)
    ensures Lawful(run.policy.budget, run.past, run.log) && run.policy.budget.hard && run.policy.budget.limit.Some?
    ensures |run.log| > 2 && run.log[2] == Session(Restart)
    ensures Total(run.past, run.log[..2], Execution) >= Allocated(run.policy.budget, Execution).value
  {
    run := new Execution(TIGHT, Past([], 0.0, 0.0), n => SPENDER,
        n => Answer(false, Verified, Verified, false, false), n => 0, true, 0, 0);
    SpenderRestarts();
    ghost var opening := Opening(run.Here(), run.Now(), First);
    assert opening == SPENT_OPENING;
    var outcome := run.Execute(false);
    assert run.log[..2] == SPENT_OPENING[..2];
    SpentTen();
  }

  const SPENT_OPENING: Log := [Session(First), Charge(10.0), Session(Restart)]

  lemma SpenderRestarts()
    ensures HearAll(SPENDER, None, TIGHT.capabilities, 0, 1) == Heard([Charge(10.0)], Restarted, Some(SafeRestart))
  {
    var c := TIGHT.capabilities;
    assert Hear(SPENDER, 1, None, c, 0, 1) == Heard([], Restarted, Some(SafeRestart));
  }

  lemma SpentTen()
    ensures Spent(SPENT_OPENING[..2], Execution) == 10.0
  {
    var l := SPENT_OPENING[..2];
    assert l == [Session(First), Charge(10.0)] && Init(l) == [Session(First)] && Init([Session(First)]) == [];
  }

  lemma {:induction false} RepairedLately(log: Log, i: nat)
    requires 0 < i < |log| && log[i] == Session(Repair) && log[i - 1].Check?
    requires forall j :: i < j < |log| ==> log[j] != Session(Repair)
    ensures Repaired(log) == Some(log[i - 1].digest)
  {
    if i < |log| - 1 { RepairedLately(Init(log), i); }
  }

  /** A repair that left the candidate as it was is not followed by another one. */
  lemma NextRepairHasNewCandidate(b: Budget, past: Past, log: Log, i: nat, j: nat)
    requires Lawful(b, past, log) && i < j < |log|
    requires log[i] == Session(Repair) && log[j] == Session(Repair)
    requires forall k :: i < k < j ==> log[k] != Session(Repair)
    ensures 0 < i && log[i - 1].Check? && log[j - 1].Check? && log[i - 1].digest != log[j - 1].digest
  {
    LawfulThroughout(b, past, log, i);
    LawfulThroughout(b, past, log, j);
    var before := log[..j];
    assert Last(log[..i]) == log[i - 1] && before[i - 1] == log[i - 1] && Last(before) == log[j - 1];
    RepairedLately(before, i);
  }

  function AllSessions(log: Log): nat {
    if log == [] then 0 else AllSessions(Init(log)) + One(Last(log).Session?)
  }

  lemma OneKind(kind: Kind)
    ensures kind == First || kind == Repair || kind == Restart || kind == Recovery
  {
  }

  lemma {:induction false} SessionsAddUp(log: Log)
    ensures AllSessions(log) ==
            Sessions(log, First) + Sessions(log, Repair) + Sessions(log, Restart) + Sessions(log, Recovery)
  {
    if log != [] {
      SessionsAddUp(Init(log));
      if Last(log).Session? { OneKind(Last(log).kind); }
    }
  }
}
