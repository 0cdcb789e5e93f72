/**
 * Admission, cancellation and emergency stop of runs, at the granularity of the awaits: a call in
 * flight is a process, and each action carries one process from one await to the next.
 */
module EmergencyStop {
  import opened Wrappers

  datatype RunState = Queued | Running | Paused | Completed | Failed | Cancelled

  type Id = nat

  /**
   * The entry the active table holds for a run, together with the live run object it owns; and, as
   * history, whether that object has ever been completed or failed.
   */
  datatype Activation = Activation(id: Id, cancelled: bool, state: RunState, finished: bool)

  predicate Final(state: RunState) { state == Completed || state == Failed }

  /** Inside `cancel`, after the flag is set: before and after the run object is marked. */
  datatype Cancel = AwaitVerifier(act: nat) | AwaitStore(act: nat)

  datatype Proc =
    | Admitting(id: Id, resumed: bool)      // create or resume, waiting for a control write
    | Reading(id: Id, resumed: bool)        // reading the durable control row
    | Loaded(id: Id, resumed: bool)         // about to look at the flag
    | Preparing(id: Id, resumed: bool)      // admitted, waiting on the store
    | Refusing(c: Cancel)                   // registered under a stop, cancelling itself
    | Executing(act: nat)                   // execute, up to its last look at the cancelled flag
    | Settled(act: nat)                     // final state set, still writing
    | Recovering(act: nat)                  // execute's error path
    | Closing(act: nat)                     // execute's last await before it deregisters
    | Persisting                            // emergency stop, waiting for its durable write
    | Sweeping(todo: set<Id>, current: Option<Cancel>)
    | Swept                                 // emergency stop has returned
    | Cancelling(c: Cancel)
    | Gone

  datatype State = State(
    stopped: bool, hydrated: bool,
    acts: seq<Activation>, active: map<Id, nat>, procs: seq<Proc>)

  /** What the outside world answers at an await. */
  datatype Answer =
    | Fine | Throws | RowSays(stopped: bool) | Verdict(verified: bool) | StoredCancelled | Captured | Pick(id: Id)

  datatype Action =
    | Call(id: Id, resumed: bool)
    | CallStop
    | CallCancel(id: Id)
    | ResumeNewRuns
    | Advance(k: nat, answer: Answer)

  predicate Sound(s: State) {
    && (forall id :: id in s.active ==> s.active[id] < |s.acts| && s.acts[s.active[id]].id == id)
    && (forall k :: 0 <= k < |s.procs| && ActOf(s.procs[k]).Some? ==> ActOf(s.procs[k]).value < |s.acts|)
  }

  function ActOf(p: Proc): Option<nat> {
    match p
    case Refusing(c) => Some(c.act)
    case Executing(a) => Some(a)
    case Settled(a) => Some(a)
    case Recovering(a) => Some(a)
    case Closing(a) => Some(a)
    case Sweeping(_, Some(c)) => Some(c.act)
    case Cancelling(c) => Some(c.act)
    case _ => None
  }

  /** The single update of shared state between two awaits. */
  datatype Effect =
    | Nothing
    | Control(stopped: bool)
    | Hydrate
    | SetState(act: nat, state: RunState)
    | SetCancelled(act: nat)
    | Enter(id: Id, state: RunState, cancelled: bool)
    | Leave(id: Id)

  predicate Fits(s: State, e: Effect) {
    match e
    case SetState(a, _) => a < |s.acts|
    case SetCancelled(a) => a < |s.acts|
    case _ => true
  }

  function Apply(s: State, e: Effect): State
    requires Fits(s, e)
  {
    match e
    case Nothing => s
    case Control(v) => s.(stopped := v, hydrated := true)
    case Hydrate => s.(hydrated := true)
    case SetState(a, state) =>
      s.(acts := s.acts[a := s.acts[a].(state := state, finished := s.acts[a].finished || Final(state))])
    case SetCancelled(a) => s.(acts := s.acts[a := s.acts[a].(cancelled := true)])
    case Enter(id, state, cancelled) =>
      s.(acts := s.acts + [Activation(id, cancelled, state, false)], active := s.active[id := |s.acts|])
    case Leave(id) => s.(active := s.active - {id})
  }

  predicate CancelledAt(s: State, id: Id)
    requires Sound(s)
  {
    id in s.active && s.acts[s.active[id]].cancelled
  }

  /** `cancel` up to its first await, or no effect for a run it does not accept. */
  function StartCancel(s: State, id: Id): (Effect, Option<Cancel>)
    requires Sound(s)
  {
    if id in s.active && s.acts[s.active[id]].state != Completed && s.acts[s.active[id]].state != Failed
    then (SetCancelled(s.active[id]), Some(AwaitVerifier(s.active[id])))
    else (Nothing, None)
  }

  function StepCancel(c: Cancel): (Effect, Option<Cancel>) {
    match c
    case AwaitVerifier(a) => (SetState(a, Cancelled), Some(AwaitStore(a)))
    case AwaitStore(_) => (Nothing, None)
  }

  /** Registration and the second look at the flag, with no await in between. */
  function Register(s: State, id: Id, resumed: bool): (Effect, Proc) {
    if s.stopped then (Enter(id, if resumed then Running else Queued, true), Refusing(AwaitVerifier(|s.acts|)))
    else (Enter(id, Running, false), Executing(|s.acts|))
  }

  /** The look at the cancelled flag and the final state, with no await in between. */
  function Conclude(s: State, a: nat, verified: bool): (Effect, Proc)
    requires Sound(s) && a < |s.acts|
  {
    if CancelledAt(s, s.acts[a].id) then (Nothing, Recovering(a))
    else (SetState(a, if verified then Completed else Failed), Settled(a))
  }

  /** What a process does at its current await once the outside world has answered. */
  function Plan(s: State, p: Proc, answer: Answer): (Effect, Proc)
    requires Sound(s)
    requires ActOf(p).Some? ==> ActOf(p).value < |s.acts|
  {
    match p
    case Admitting(id, r) => (Nothing, if s.hydrated then Loaded(id, r) else Reading(id, r))
    case Reading(id, r) => (
      match answer
      case RowSays(v) => (Control(v), Loaded(id, r))
      case Throws => (Nothing, Loaded(id, r))
      case _ => (Hydrate, Loaded(id, r)))
    case Loaded(id, r) => (Nothing, if s.stopped then Gone else Preparing(id, r))
    case Preparing(id, r) => if answer == Throws then (Nothing, Gone) else Register(s, id, r)
    case Refusing(c) =>
      if answer == Throws then (Nothing, Gone)
      else
        var (e, rest) := StepCancel(c);
        if rest.Some? then (e, Refusing(rest.value)) else (Leave(s.acts[c.act].id), Gone)
    case Executing(a) => (
      match answer
      case Throws => (Nothing, Recovering(a))
      case Verdict(v) => Conclude(s, a, v)
      case _ => (Nothing, p))
    case Settled(a) => (Nothing, if answer == Throws then Recovering(a) else Closing(a))
    case Recovering(a) => (
      match answer
      case StoredCancelled => (Nothing, Closing(a))
      case Captured => (SetState(a, Paused), Closing(a))
      case _ => (SetState(a, Failed), Closing(a)))
    case Closing(a) => (Leave(s.acts[a].id), Gone)
    case Persisting => (Nothing, Sweeping(s.active.Keys, None))
    case Sweeping(todo, None) =>
      if todo == {} then (Nothing, Swept)
      else if answer.Pick? && answer.id in todo then
        var (e, c) := StartCancel(s, answer.id);
        (e, Sweeping(todo - {answer.id}, c))
      else if answer == Throws then (Nothing, Gone)
      else (Nothing, p)
    case Sweeping(todo, Some(c)) =>
      if answer == Throws then (Nothing, Gone)
      else
        var (e, rest) := StepCancel(c);
        (e, Sweeping(todo, rest))
    case Cancelling(c) =>
      if answer == Throws then (Nothing, Gone)
      else
        var (e, rest) := StepCancel(c);
        (e, if rest.Some? then Cancelling(rest.value) else Gone)
    case Swept => (Nothing, p)
    case Gone => (Nothing, p)
  }

  lemma ApplySound(s: State, e: Effect)
    requires Sound(s) && Fits(s, e)
    ensures Sound(Apply(s, e))
    ensures |Apply(s, e).acts| == (if e.Enter? then |s.acts| + 1 else |s.acts|)
    ensures Apply(s, e).procs == s.procs
  {
  }

  /** The acts a process names exist. */
  predicate Names(s: State, p: Proc) {
    ActOf(p).Some? ==> ActOf(p).value < |s.acts|
  }

  lemma PlanFits(s: State, p: Proc, answer: Answer)
    requires Sound(s) && Names(s, p)
    ensures Fits(s, Plan(s, p, answer).0) && Names(Apply(s, Plan(s, p, answer).0), Plan(s, p, answer).1)
  {
  }

  function Step(s: State, k: nat, answer: Answer): State
    requires Sound(s) && k < |s.procs|
  {
    PlanFits(s, s.procs[k], answer);
    var (e, p) := Plan(s, s.procs[k], answer);
    Apply(s, e).(procs := s.procs[k := p])
  }

  function Next(s: State, action: Action): State
    requires Sound(s)
  {
    match action
    case Call(id, r) => s.(procs := s.procs + [Admitting(id, r)])
    case CallStop => Apply(s, Control(true)).(procs := s.procs + [Persisting])
    case CallCancel(id) =>
      var (e, c) := StartCancel(s, id);
      Apply(s, e).(procs := s.procs + [if c.Some? then Cancelling(c.value) else Gone])
    case ResumeNewRuns => Apply(s, Control(false))
    case Advance(k, answer) => if k < |s.procs| then Step(s, k, answer) else s
  }

  const START := State(false, false, [], map[], [])

  lemma StepSound(s: State, k: nat, answer: Answer)
    requires Sound(s) && k < |s.procs|
    ensures Sound(Step(s, k, answer))
  {
    hide Plan, Apply;
    PlanFits(s, s.procs[k], answer);
    ApplySound(s, Plan(s, s.procs[k], answer).0);
  }

  lemma NextSound(s: State, action: Action)
    requires Sound(s)
    ensures Sound(Next(s, action))
  {
    hide Step;
    if action.Advance? && action.k < |s.procs| { StepSound(s, action.k, action.answer); }
  }

  /** The state a list of actions leads to. */
  function After(s: State, actions: seq<Action>): (t: State)
    requires Sound(s)
    ensures Sound(t)
  {
    if actions == [] then s
    else
      var before := After(s, actions[..|actions| - 1]);
      NextSound(before, actions[|actions| - 1]);
      Next(before, actions[|actions| - 1])
  }

  // ------------------------------------------------------------------- a stop blocks new starts

  /** No call is between asking for the durable control row and reading it. */
  predicate NothingReading(s: State) {
    forall k :: 0 <= k < |s.procs| ==> !s.procs[k].Reading?
  }

  /** The stop is on, and only the first `n` activations have ever started executing. */
  predicate Blocked(s: State, n: nat) {
    && s.stopped && s.hydrated && NothingReading(s) && n <= |s.acts|
    && forall k :: 0 <= k < |s.procs| && s.procs[k].Executing? ==> s.procs[k].act < n
  }

  predicate NoResume(actions: seq<Action>) {
    ResumeNewRuns !in actions
  }

  lemma BlockedStep(s: State, k: nat, answer: Answer, n: nat)
    requires Sound(s) && Blocked(s, n) && k < |s.procs|
    ensures Blocked(Step(s, k, answer), n)
  {
    hide Apply;
    PlanFits(s, s.procs[k], answer);
    var (e, p) := Plan(s, s.procs[k], answer);
    assert !p.Reading? && !e.Control? && (p.Executing? ==> p == s.procs[k]);
    ApplyFlags(s, e);
  }

  lemma ApplyFlags(s: State, e: Effect)
    requires Fits(s, e) && !e.Control?
    ensures Apply(s, e).stopped == s.stopped && (s.hydrated ==> Apply(s, e).hydrated)
    ensures Apply(s, e).procs == s.procs && |s.acts| <= |Apply(s, e).acts|
  {
  }

  lemma BlockedNext(s: State, action: Action, n: nat)
    requires Sound(s) && Blocked(s, n) && action != ResumeNewRuns
    ensures Blocked(Next(s, action), n)
  {
    hide Step;
    if action.Advance? && action.k < |s.procs| { BlockedStep(s, action.k, action.answer, n); }
  }

  lemma {:induction false} BlockedAfter(s: State, actions: seq<Action>, n: nat)
    requires Sound(s) && Blocked(s, n) && NoResume(actions)
    ensures Blocked(After(s, actions), n)
  {
    hide Next, Blocked;
    if actions != [] {
      var m := |actions| - 1;
      BlockedAfter(s, actions[..m], n);
      BlockedNext(After(s, actions[..m]), actions[m], n);
    }
  }

  /** Whatever is done after a stop, short of resuming, it stays on and no new execution starts. */
  ghost predicate StopHolds(s: State)
    requires Sound(s)
  {
    forall actions: seq<Action> {:trigger After(Next(s, CallStop), actions)} ::
      Sound(Next(s, CallStop)) && NoResume(actions) ==> Blocked(After(Next(s, CallStop), actions), |s.acts|)
  }

  lemma AfterAppend(s: State, actions: seq<Action>, action: Action)
    requires Sound(s)
    ensures After(s, actions + [action]) == Next(After(s, actions), action)
  {
    assert (actions + [action])[..|actions|] == actions;
  }

  lemma ReadThenAdmitted(s: State, k: nat)
    requires Sound(s) && k < |s.procs| && s.procs[k].Reading?
    ensures var t := Step(s, k, RowSays(false));
            !t.stopped && |t.procs| == |s.procs| && t.procs[k].Loaded? && |t.acts| == |s.acts|
  {
  }

  lemma AdmittedThenPreparing(s: State, k: nat)
    requires Sound(s) && k < |s.procs| && s.procs[k].Loaded? && !s.stopped
    ensures var t := Step(s, k, Fine);
            !t.stopped && |t.procs| == |s.procs| && t.procs[k].Preparing? && |t.acts| == |s.acts|
  {
  }

  lemma PreparingThenExecuting(s: State, k: nat)
    requires Sound(s) && k < |s.procs| && s.procs[k].Preparing? && !s.stopped
    ensures var t := Step(s, k, Fine);
            !t.stopped && k < |t.procs| && t.procs[k] == Executing(|s.acts|)
  {
  }

  function LateRead(k: nat): seq<Action> { [Advance(k, RowSays(false)), Advance(k, Fine), Advance(k, Fine)] }

  /** The late answer to a control read undoes the stop, and its call goes on to execute. */
  lemma LateReadUndoesStop(s: State, k: nat)
    requires Sound(s) && k < |s.procs| && s.procs[k].Reading?
    ensures Sound(Next(s, CallStop)) && NoResume(LateRead(k))
    ensures var t := After(Next(s, CallStop), LateRead(k));
            !t.stopped && k < |t.procs| && t.procs[k] == Executing(|s.acts|)
  {
    hide Step;
    NextSound(s, CallStop);
    var s0 := Next(s, CallStop);
    var acts := LateRead(k);
    AfterAppend(s0, [], acts[0]);
    AfterAppend(s0, acts[..1], acts[1]);
    AfterAppend(s0, acts[..2], acts[2]);
    assert [] + [acts[0]] == acts[..1] && acts[..1] + [acts[1]] == acts[..2] && acts[..2] + [acts[2]] == acts;
    var s1 := After(s0, acts[..1]);
    var s2 := After(s0, acts[..2]);
    assert s0.procs[k] == s.procs[k];
    ReadThenAdmitted(s0, k);
    AdmittedThenPreparing(s1, k);
    PreparingThenExecuting(s2, k);
  }

  /**
   * A stop holds until the resume exactly when no control read is in flight as it lands: the flag
   * stays set whatever is called and in whatever order the awaits are answered, and no call to
   * create or resume starts executing.
   */
  lemma StopHoldsIffNothingReading(s: State)
    requires Sound(s)
    ensures StopHolds(s) <==> NothingReading(s)
  {
    NextSound(s, CallStop);
    if NothingReading(s) {
      forall actions: seq<Action> | NoResume(actions)
        ensures Blocked(After(Next(s, CallStop), actions), |s.acts|)
      {
        BlockedAfter(Next(s, CallStop), actions, |s.acts|);
      }
    } else {
      var k :| 0 <= k < |s.procs| && s.procs[k].Reading?;
      LateReadUndoesStop(s, k);
    }
  }

  // ------------------------------------------------------------ every active run is swept

  /** The activation whose table entry a process will remove when it ends. */
  function Owned(p: Proc): Option<nat> {
    match p
    case Refusing(c) => Some(c.act)
    case Executing(a) => Some(a)
    case Settled(a) => Some(a)
    case Recovering(a) => Some(a)
    case Closing(a) => Some(a)
    case _ => None
  }

  predicate Linked(s: State, p: Proc) {
    match Owned(p)
    case None => true
    case Some(a) => a < |s.acts| && s.acts[a].id in s.active && s.active[s.acts[a].id] == a
  }

  /** The activation a process is cancelling. */
  function CancelOf(p: Proc): Option<nat> {
    match p
    case Refusing(c) => Some(c.act)
    case Sweeping(_, Some(c)) => Some(c.act)
    case Cancelling(c) => Some(c.act)
    case _ => None
  }

  /**
   * An executing run has not ended; one that has, and is not yet closing, still shows it unless it
   * was cancelled; and a cancel in flight has set the flag.
   */
  predicate Tidy(s: State, p: Proc) {
    && (p.Executing? && p.act < |s.acts| ==> !s.acts[p.act].finished && !Final(s.acts[p.act].state))
    && (p.Settled? && p.act < |s.acts| ==> s.acts[p.act].cancelled || Final(s.acts[p.act].state))
    && (p.Recovering? && p.act < |s.acts| && s.acts[p.act].finished ==>
          s.acts[p.act].cancelled || Final(s.acts[p.act].state))
    && (CancelOf(p).Some? && CancelOf(p).value < |s.acts| ==> s.acts[CancelOf(p).value].cancelled)
  }

  /**
   * Every call owning an activation owns the entry of the active table, no two own the same one, the
   * calls are tidy, and no activation is both cancelled and completed.
   */
  ghost predicate Exclusive(s: State) {
    && (forall k :: 0 <= k < |s.procs| ==> Linked(s, s.procs[k]) && Tidy(s, s.procs[k]))
    && (forall j, k :: 0 <= j < k < |s.procs| && Owned(s.procs[j]).Some? ==> Owned(s.procs[j]) != Owned(s.procs[k]))
    && (forall a :: 0 <= a < |s.acts| ==> Truthful(s.acts[a]))
  }

  /** Not both cancelled and completed, and a final state is on record. */
  predicate Truthful(a: Activation) {
    (a.cancelled ==> a.state != Completed) && (Final(a.state) ==> a.finished)
  }

  /** A call in flight still owns an activation of this run. */
  predicate Busy(s: State, id: Id)
    requires Sound(s)
  {
    exists k :: 0 <= k < |s.procs| && OwnsRun(s, s.procs[k], id)
  }

  predicate OwnsRun(s: State, p: Proc, id: Id) {
    Owned(p).Some? && Owned(p).value < |s.acts| && s.acts[Owned(p).value].id == id
  }

  /** Not a registration of a run that a call in flight still owns. */
  predicate Clean(s: State, action: Action)
    requires Sound(s)
  {
    action.Advance? && action.k < |s.procs| && s.procs[action.k].Preparing? && action.answer != Throws
    ==> !Busy(s, s.procs[action.k].id)
  }

  predicate AllClean(s: State, actions: seq<Action>)
    requires Sound(s)
  {
    actions == [] ||
    (AllClean(s, actions[..|actions| - 1]) && Clean(After(s, actions[..|actions| - 1]), actions[|actions| - 1]))
  }

  /** What one step of a process may do, given what it owned. */
  predicate Lawful(s: State, p: Proc, e: Effect, q: Proc)
    requires Sound(s)
  {
    && Fits(s, e)
    && (q.Executing? ==> (q == p && e == Nothing) || (e.Enter? && q.act == |s.acts|))
    && (match e
        case Enter(_, state, cancelled) =>
          && p.Preparing? && Owned(q) == Some(|s.acts|) && !Final(state)
          && (q.Executing? || (q.Refusing? && cancelled))
        case Leave(id) =>
          && Owned(q) == None && CancelOf(q) == None
          && Owned(p).Some? && Owned(p).value < |s.acts| && s.acts[Owned(p).value].id == id
        case SetState(a, state) =>
          && (Owned(q) == None || Owned(q) == Owned(p)) && (CancelOf(q) == None || CancelOf(q) == CancelOf(p))
          && (if state == Cancelled then CancelOf(p) == Some(a) && !q.Settled? && !q.Recovering?
              else Owned(p) == Some(a) && ((Final(state) && q == Settled(a)) || q == Closing(a)))
          && (state == Completed ==> !CancelledAt(s, s.acts[a].id))
        case SetCancelled(a) =>
          && Owned(q) == None && (CancelOf(q) == None || CancelOf(q) == Some(a)) && !Final(s.acts[a].state)
        case _ =>
          && (Owned(q) == None || Owned(q) == Owned(p)) && (CancelOf(q) == None || CancelOf(q) == CancelOf(p))
          && (q.Settled? ==> q == p)
          && (q.Recovering? ==> p.Executing? || p.Settled? || q == p))
  }

  lemma PlanLawful(s: State, p: Proc, answer: Answer)
    requires Sound(s) && Names(s, p)
    ensures Lawful(s, p, Plan(s, p, answer).0, Plan(s, p, answer).1)
  {
  }

  lemma LawfulKeepsLinks(s: State, k: nat, e: Effect, q: Proc)
    requires Sound(s) && Exclusive(s) && k < |s.procs| && Lawful(s, s.procs[k], e, q)
    requires e.Enter? ==> !Busy(s, e.id)
    ensures var t := Apply(s, e).(procs := s.procs[k := q]);
            forall j :: 0 <= j < |t.procs| ==> Linked(t, t.procs[j])
  {
    hide Tidy;
    var t := Apply(s, e).(procs := s.procs[k := q]);
    forall j | 0 <= j < |t.procs|
      ensures Linked(t, t.procs[j])
    {
      assert Linked(s, s.procs[j]);
    }
  }

  lemma LawfulKeepsOwners(s: State, k: nat, e: Effect, q: Proc)
    requires Sound(s) && Exclusive(s) && k < |s.procs| && Lawful(s, s.procs[k], e, q)
    ensures var t := Apply(s, e).(procs := s.procs[k := q]);
            forall i, j :: 0 <= i < j < |t.procs| && Owned(t.procs[i]).Some? ==> Owned(t.procs[i]) != Owned(t.procs[j])
  {
    hide Tidy, Apply;
    assert forall j :: 0 <= j < |s.procs| ==> Linked(s, s.procs[j]);
  }

  /** The process that moves. */
  lemma MoverStaysTidy(s: State, p: Proc, e: Effect, q: Proc, t: State)
    requires Sound(s) && Linked(s, p) && Tidy(s, p) && Lawful(s, p, e, q) && t.acts == Apply(s, e).acts
    ensures Tidy(t, q)
  {
  }

  /** A process that owns another activation, or none. */
  lemma OtherStaysTidy(s: State, p: Proc, e: Effect, q: Proc, other: Proc, t: State)
    requires Sound(s) && Names(s, other) && Tidy(s, other) && Linked(s, p) && Lawful(s, p, e, q)
    requires Owned(other).Some? ==> Owned(other) != Owned(p)
    requires t.acts == Apply(s, e).acts
    requires Linked(s, other) && Tidy(s, p)
    ensures Tidy(t, other)
  {
  }

  lemma LawfulKeepsTidy(s: State, k: nat, e: Effect, q: Proc, j: nat)
    requires Sound(s) && Exclusive(s) && k < |s.procs| && Lawful(s, s.procs[k], e, q) && j < |s.procs|
    ensures var t := Apply(s, e).(procs := s.procs[k := q]); Tidy(t, t.procs[j])
  {
    hide Sound, Apply, Tidy, Linked, Owned, Names;
    assert Linked(s, s.procs[j]) && Tidy(s, s.procs[j]) && Linked(s, s.procs[k]) && Tidy(s, s.procs[k]);
    NamesOf(s, j);
    var t := Apply(s, e).(procs := s.procs[k := q]);
    if j == k {
      MoverStaysTidy(s, s.procs[k], e, q, t);
    } else {
      OtherStaysTidy(s, s.procs[k], e, q, s.procs[j], t);
    }
  }

  lemma LawfulKeepsCancels(s: State, k: nat, e: Effect, q: Proc)
    requires Sound(s) && Exclusive(s) && k < |s.procs| && Lawful(s, s.procs[k], e, q)
    ensures var t := Apply(s, e).(procs := s.procs[k := q]);
            forall a :: 0 <= a < |t.acts| ==> Truthful(t.acts[a])
  {
    assert Linked(s, s.procs[k]) && Tidy(s, s.procs[k]);
    forall a | 0 <= a < |s.acts| ensures Truthful(s.acts[a]) {
    }
  }

  lemma LawfulKeepsExclusive(s: State, k: nat, e: Effect, q: Proc)
    requires Sound(s) && Exclusive(s) && k < |s.procs| && Lawful(s, s.procs[k], e, q)
    requires e.Enter? ==> !Busy(s, e.id)
    ensures Exclusive(Apply(s, e).(procs := s.procs[k := q]))
  {
    hide Sound, Apply, Tidy, Linked, Owned;
    LawfulKeepsLinks(s, k, e, q);
    LawfulKeepsOwners(s, k, e, q);
    LawfulKeepsCancels(s, k, e, q);
    var t := Apply(s, e).(procs := s.procs[k := q]);
    forall j | 0 <= j < |t.procs| ensures Tidy(t, t.procs[j]) {
      LawfulKeepsTidy(s, k, e, q, j);
    }
  }

  lemma EntersOnlyPrepared(s: State, p: Proc, answer: Answer)
    requires Sound(s) && Names(s, p)
    ensures Plan(s, p, answer).0.Enter? ==> p.Preparing? && answer != Throws && Plan(s, p, answer).0.id == p.id
  {
  }

  lemma ExclusiveStep(s: State, k: nat, answer: Answer)
    requires Sound(s) && Exclusive(s) && k < |s.procs| && Clean(s, Advance(k, answer))
    ensures Exclusive(Step(s, k, answer))
  {
    hide Sound, Plan, Apply, Exclusive, Lawful, Busy, Names;
    NamesOf(s, k);
    PlanFits(s, s.procs[k], answer);
    PlanLawful(s, s.procs[k], answer);
    EntersOnlyPrepared(s, s.procs[k], answer);
    LawfulKeepsExclusive(s, k, Plan(s, s.procs[k], answer).0, Plan(s, s.procs[k], answer).1);
  }

  lemma NamesOf(s: State, k: nat)
    requires Sound(s) && k < |s.procs|
    ensures Names(s, s.procs[k])
  {
  }

  lemma ExclusiveArrival(s: State, e: Effect, p: Proc)
    requires Sound(s) && Exclusive(s) && Fits(s, e)
    requires e.Nothing? || e.Control? || (e.SetCancelled? && s.acts[e.act].state != Completed)
    requires Owned(p).None? && (CancelOf(p).Some? ==> e == SetCancelled(CancelOf(p).value))
    ensures Exclusive(Apply(s, e).(procs := s.procs + [p]))
  {
    var t := Apply(s, e).(procs := s.procs + [p]);
    forall j | 0 <= j < |t.procs|
      ensures Linked(t, t.procs[j]) && Tidy(t, t.procs[j])
    {
      if j < |s.procs| { assert Linked(s, s.procs[j]) && Tidy(s, s.procs[j]); }
    }
  }

  lemma StartFacts(s: State, id: Id)
    requires Sound(s)
    ensures Fits(s, StartCancel(s, id).0)
    ensures var e := StartCancel(s, id).0; e.Nothing? || (e.SetCancelled? && s.acts[e.act].state != Completed)
    ensures var c := StartCancel(s, id).1; c.Some? ==> StartCancel(s, id).0 == SetCancelled(c.value.act)
  {
  }

  lemma ExclusiveNext(s: State, action: Action)
    requires Sound(s) && Exclusive(s) && Clean(s, action)
    ensures Exclusive(Next(s, action))
  {
    hide Step, Exclusive, StartCancel, Sound, Clean;
    match action
    case Call(id, r) => ExclusiveArrival(s, Nothing, Admitting(id, r));
    case CallStop => ExclusiveArrival(s, Control(true), Persisting);
    case CallCancel(id) =>
      StartFacts(s, id);
      var (e, c) := StartCancel(s, id);
      ExclusiveArrival(s, e, if c.Some? then Cancelling(c.value) else Gone);
    case ResumeNewRuns => ExclusiveControl(s);
    case Advance(k, answer) => if k < |s.procs| { ExclusiveStep(s, k, answer); }
  }

  lemma ExclusiveControl(s: State)
    requires Sound(s) && Exclusive(s)
    ensures Exclusive(Apply(s, Control(false)))
  {
    var t := Apply(s, Control(false));
    forall j | 0 <= j < |t.procs|
      ensures Linked(t, t.procs[j]) && Tidy(t, t.procs[j])
    {
      assert Linked(s, s.procs[j]) && Tidy(s, s.procs[j]);
    }
  }

  /** Over every interleaving of clean calls. */
  lemma {:induction false} ExclusiveAfter(s: State, actions: seq<Action>)
    requires Sound(s) && Exclusive(s) && AllClean(s, actions)
    ensures Exclusive(After(s, actions))
  {
    hide Next, Exclusive, Clean;
    if actions != [] {
      var m := |actions| - 1;
      ExclusiveAfter(s, actions[..m]);
      ExclusiveNext(After(s, actions[..m]), actions[m]);
    }
  }

  predicate Keeps(was: Activation, now: Activation) {
    (was.cancelled ==> now.cancelled) && (was.finished ==> now.finished)
  }

  /** Activations are only added, keep their run, and a cancelled flag is never cleared. */
  predicate Extends(s: State, t: State) {
    && |s.acts| <= |t.acts|
    && forall a :: 0 <= a < |s.acts| ==> t.acts[a].id == s.acts[a].id && Keeps(s.acts[a], t.acts[a])
  }

  lemma ExtendsApply(s: State, e: Effect)
    requires Fits(s, e)
    ensures Extends(s, Apply(s, e))
  {
  }

  lemma ExtendsNext(s: State, action: Action)
    requires Sound(s)
    ensures Extends(s, Next(s, action))
  {
    hide Sound, Apply, Extends, StartCancel, Plan, Names;
    match action
    case Call(id, r) => ApplyNothing(s); ExtendsApply(s, Nothing); ExtendsOnlyActs(s, s, Next(s, action));
    case CallStop => ExtendsApply(s, Control(true)); ExtendsOnlyActs(s, Apply(s, Control(true)), Next(s, action));
    case CallCancel(id) =>
      StartFacts(s, id);
      var e := StartCancel(s, id).0;
      ExtendsApply(s, e);
      ExtendsOnlyActs(s, Apply(s, e), Next(s, action));
    case ResumeNewRuns => ExtendsApply(s, Control(false));
    case Advance(k, answer) =>
      ApplyNothing(s);
      ExtendsApply(s, Nothing);
      if k < |s.procs| {
        NamesOf(s, k);
        PlanFits(s, s.procs[k], answer);
        var e := Plan(s, s.procs[k], answer).0;
        ExtendsApply(s, e);
        ExtendsOnlyActs(s, Apply(s, e), Next(s, action));
      }
  }

  lemma ApplyNothing(s: State)
    ensures Apply(s, Nothing) == s
  {
  }

  lemma ExtendsOnlyActs(s: State, t: State, u: State)
    requires Extends(s, t) && u.acts == t.acts
    ensures Extends(s, u)
  {
  }

  lemma {:induction false} ExtendsAfter(s: State, actions: seq<Action>)
    requires Sound(s)
    ensures Extends(s, After(s, actions))
  {
    hide Next;
    if actions != [] {
      var m := |actions| - 1;
      ExtendsAfter(s, actions[..m]);
      ExtendsNext(After(s, actions[..m]), actions[m]);
    }
  }

  /** A run whose cancellation was accepted never completes afterwards. */
  lemma CancelledNeverCompletes(s: State, actions: seq<Action>, a: nat)
    requires Sound(s) && Exclusive(s) && AllClean(s, actions)
    requires a < |s.acts| && s.acts[a].cancelled
    ensures var t := After(s, actions); a < |t.acts| && t.acts[a].cancelled && t.acts[a].state != Completed
  {
    ExclusiveAfter(s, actions);
    ExtendsAfter(s, actions);
  }

  /** The activation a process owns is cancelled, has had a final state, or is still on the list. */
  predicate Reached(s: State, p: Proc, todo: set<Id>) {
    Owned(p).Some? && Owned(p).value < |s.acts| ==>
      var a := s.acts[Owned(p).value];
      a.cancelled || a.finished || a.id in todo
  }

  function Todo(p: Proc): set<Id> {
    match p
    case Sweeping(todo, _) => todo
    case _ => {}
  }

  /** The sweep has reached, or still has on its list, every run that a call in flight owns. */
  ghost predicate SweepCovers(s: State, n: nat) {
    && n < |s.procs|
    && var sweep := s.procs[n];
       || sweep.Persisting? || sweep.Gone?
       || ((sweep.Sweeping? || sweep.Swept?) && forall k :: 0 <= k < |s.procs| ==> Reached(s, s.procs[k], Todo(sweep)))
  }

  /** An owned run that the sweep picks is found under its own entry, and cancelled unless it has ended. */
  lemma PickFlags(s: State, p: Proc)
    requires Sound(s) && p in s.procs && Exclusive(s) && Owned(p).Some?
    ensures var a := Owned(p).value;
            && a < |s.acts| && s.acts[a].id in s.active && Truthful(s.acts[a])
            && (Final(s.acts[a].state) || StartCancel(s, s.acts[a].id).0 == SetCancelled(a))
  {
    assert Linked(s, p);
  }

  lemma SweepStep(s: State, n: nat, answer: Answer, k: nat)
    requires Sound(s) && Exclusive(s) && n < |s.procs| && k < |s.procs| && k != n && Owned(s.procs[k]).Some?
    requires s.procs[n].Persisting?
             || ((s.procs[n].Sweeping? || s.procs[n].Swept?) && Reached(s, s.procs[k], Todo(s.procs[n])))
    ensures var t := Step(s, n, answer);
            && |t.procs| == |s.procs| && t.procs[k] == s.procs[k]
            && (!t.procs[n].Gone? ==> Reached(t, t.procs[k], Todo(t.procs[n])))
  {
    hide Exclusive;
    PickFlags(s, s.procs[k]);
    PlanFits(s, s.procs[n], answer);
  }

  lemma SweepShape(s: State, n: nat, answer: Answer)
    requires Sound(s) && SweepCovers(s, n)
    ensures var p := Step(s, n, answer).procs[n]; p.Gone? || (!s.procs[n].Gone? && (p.Sweeping? || p.Swept?))
    ensures |Step(s, n, answer).procs| == |s.procs|
  {
    PlanFits(s, s.procs[n], answer);
  }

  lemma SweepPicks(s: State, n: nat, answer: Answer)
    requires Sound(s) && Exclusive(s) && SweepCovers(s, n)
    ensures SweepCovers(Step(s, n, answer), n)
  {
    hide Step, Sound, Exclusive;
    SweepShape(s, n, answer);
    StepKeepsOthers(s, n, answer);
    var t := Step(s, n, answer);
    forall k: nat | k < |s.procs| && !t.procs[n].Gone?
      ensures Reached(t, t.procs[k], Todo(t.procs[n]))
    {
      if k != n && Owned(s.procs[k]).Some? { SweepStep(s, n, answer, k); }
    }
  }

  lemma StepKeepsOthers(s: State, n: nat, answer: Answer)
    requires Sound(s) && n < |s.procs|
    ensures var t := Step(s, n, answer);
            |t.procs| == |s.procs| && forall k :: 0 <= k < |s.procs| && k != n ==> t.procs[k] == s.procs[k]
  {
    PlanFits(s, s.procs[n], answer);
    var p := Plan(s, s.procs[n], answer).1;
    assert Step(s, n, answer).procs == s.procs[n := p];
  }

  /** What a process owns it owned before, or it has just been refused. */
  predicate NothingNew(s: State, t: State, k: nat) {
    k < |t.procs| && Owned(t.procs[k]).Some? ==>
      || (k < |s.procs| && Owned(t.procs[k]) == Owned(s.procs[k]))
      || (Owned(t.procs[k]).value < |t.acts| && t.acts[Owned(t.procs[k]).value].cancelled)
  }

  lemma SweepUndisturbed(s: State, t: State, n: nat)
    requires SweepCovers(s, n) && Sound(s) && Extends(s, t)
    requires n < |t.procs| && t.procs[n] == s.procs[n]
    requires forall k: nat :: k < |t.procs| ==> NothingNew(s, t, k)
    ensures SweepCovers(t, n)
  {
    forall k | 0 <= k < |t.procs| && !s.procs[n].Persisting? && !s.procs[n].Gone?
      ensures Reached(t, t.procs[k], Todo(t.procs[n]))
    {
      assert NothingNew(s, t, k);
      if k < |s.procs| { OwnedExists(s, k); }
    }
  }

  lemma OwnedExists(s: State, k: nat)
    requires Sound(s) && k < |s.procs|
    ensures Owned(s.procs[k]).Some? ==> Owned(s.procs[k]).value < |s.acts|
  {
  }

  lemma StepOwnsNothingNew(s: State, k: nat, answer: Answer)
    requires Sound(s) && s.stopped && k < |s.procs|
    ensures NothingNew(s, Step(s, k, answer), k)
  {
    PlanFits(s, s.procs[k], answer);
  }

  lemma SweepNext(s: State, action: Action, n: nat)
    requires Sound(s) && Exclusive(s) && Clean(s, action) && s.stopped && SweepCovers(s, n)
    ensures SweepCovers(Next(s, action), n)
  {
    hide Step, Exclusive, StartCancel, Sound, Clean, Extends, SweepCovers;
    SweepIndex(s, n);
    ExtendsNext(s, action);
    match action
    case Advance(k, answer) =>
      if k == n {
        SweepPicks(s, n, answer);
      } else if k < |s.procs| {
        StepKeepsOthers(s, k, answer);
        StepOwnsNothingNew(s, k, answer);
        SweepUndisturbed(s, Next(s, action), n);
      }
    case CallCancel(id) => StartFacts(s, id); SweepUndisturbed(s, Next(s, action), n);
    case _ => SweepUndisturbed(s, Next(s, action), n);
  }

  lemma SweepIndex(s: State, n: nat)
    requires SweepCovers(s, n)
    ensures n < |s.procs|
  {
  }

  lemma {:induction false} SweepAfter(s: State, actions: seq<Action>, n: nat, m: nat)
    requires Sound(s) && Exclusive(s) && Blocked(s, m) && SweepCovers(s, n)
    requires AllClean(s, actions) && NoResume(actions)
    ensures SweepCovers(After(s, actions), n)
  {
    hide Next, SweepCovers, Exclusive, Clean;
    if actions != [] {
      var l := |actions| - 1;
      SweepAfter(s, actions[..l], n, m);
      ExclusiveAfter(s, actions[..l]);
      BlockedAfter(s, actions[..l], m);
      SweepNext(After(s, actions[..l]), actions[l], n);
    }
  }

  /** The state once the stop called in `s` has returned, if it has. */
  predicate Returned(s: State, t: State) {
    |s.procs| < |t.procs| && t.procs[|s.procs|].Swept?
  }

  /**
   * Once a stop has returned, every run that a call in flight still owns is cancelled or has reached
   * COMPLETED or FAILED, whatever happened between the flag and the return; one still executing is
   * cancelled, and one on the error path is cancelled or shows its final state.
   */
  lemma SweepReachesEveryRun(s: State, actions: seq<Action>, k: nat)
    requires Sound(s) && Exclusive(s) && NothingReading(s) && Sound(Next(s, CallStop))
    requires AllClean(Next(s, CallStop), actions) && NoResume(actions)
    requires var t := After(Next(s, CallStop), actions); Returned(s, t) && k < |t.procs| && Owned(t.procs[k]).Some?
    ensures var t := After(Next(s, CallStop), actions);
            && Owned(t.procs[k]).value < |t.acts|
            && var a := t.acts[Owned(t.procs[k]).value];
               && (a.cancelled || a.finished)
               && (t.procs[k].Executing? ==> a.cancelled)
               && (t.procs[k].Recovering? ==> a.cancelled || Final(a.state))
  {
    hide After, Next, Linked, AllClean, NoResume, NothingReading;
    StopBlocks(s);
    var t := After(Next(s, CallStop), actions);
    SweepAfter(Next(s, CallStop), actions, |s.procs|, |s.acts|);
    ExclusiveAfter(Next(s, CallStop), actions);
    OwnedExists(t, k);
    assert Tidy(t, t.procs[k]) && Reached(t, t.procs[k], Todo(t.procs[|s.procs|]));
  }

  lemma StopBlocks(s: State)
    requires Sound(s) && Exclusive(s) && NothingReading(s) && Sound(Next(s, CallStop))
    ensures Exclusive(Next(s, CallStop)) && Blocked(Next(s, CallStop), |s.acts|)
    ensures SweepCovers(Next(s, CallStop), |s.procs|)
  {
    hide Exclusive;
    ExclusiveNext(s, CallStop);
    forall k | 0 <= k < |s.procs| ensures Names(s, s.procs[k]) {
      NamesOf(s, k);
    }
  }

  /** From the empty state on: all the states the clean calls reach qualify. */
  lemma StartIsExclusive()
    ensures Sound(START) && Exclusive(START) && NothingReading(START)
  {
  }

  // ------------------------------------------------------- why registrations must be clean

  lemma {:induction false} AfterFirst(s: State, action: Action, rest: seq<Action>)
    requires Sound(s) && Sound(Next(s, action))
    ensures After(s, [action] + rest) == After(Next(s, action), rest)
    ensures Clean(s, action) && AllClean(Next(s, action), rest) ==> AllClean(s, [action] + rest)
  {
    hide Next, Clean, Sound;
    var all := [action] + rest;
    if rest == [] {
      assert all[..0] == [] && all[0] == action;
      assert After(s, []) == s && AllClean(s, []);
    } else {
      var m := |rest| - 1;
      AfterFirst(s, action, rest[..m]);
      assert all[..|all| - 1] == [action] + rest[..m];
    }
  }

  /** The answer on which an owner moves towards the removal of its table entry. */
  function Onward(p: Proc): Answer {
    match p
    case Executing(_) => Throws
    case Settled(_) => Throws
    case Recovering(_) => StoredCancelled
    case _ => Fine
  }

  function Remaining(p: Proc): nat {
    match p
    case Refusing(AwaitVerifier(_)) => 1
    case Executing(_) => 2
    case Settled(_) => 2
    case Recovering(_) => 1
    case _ => 0
  }

  /** Only the owner at `o` moved, and of the activations only its own changed. */
  predicate OnlyMoved(s: State, t: State, o: nat, a: nat) {
    && |t.procs| == |s.procs| && |t.acts| == |s.acts| && t.stopped == s.stopped
    && (forall j :: 0 <= j < |s.procs| && j != o ==> t.procs[j] == s.procs[j])
    && (forall b :: 0 <= b < |s.acts| && b != a ==> t.acts[b] == s.acts[b])
    && (a < |s.acts| ==> t.acts[a].id == s.acts[a].id)
  }

  lemma OnwardStep(s: State, o: nat, a: nat)
    requires Sound(s) && o < |s.procs| && Owned(s.procs[o]) == Some(a) && a < |s.acts|
    ensures Clean(s, Advance(o, Onward(s.procs[o])))
    ensures var t := Step(s, o, Onward(s.procs[o]));
            && OnlyMoved(s, t, o, a)
            && (if Remaining(s.procs[o]) == 0 then t.active == s.active - {s.acts[a].id}
                else
                  && t.active == s.active && Owned(t.procs[o]) == Some(a)
                  && Remaining(t.procs[o]) < Remaining(s.procs[o]))
  {
  }

  /** Left alone, an owner ends up removing whatever entry its run has. */
  lemma {:induction false} OwnerRemovesEntry(s: State, o: nat, a: nat) returns (moves: seq<Action>)
    requires Sound(s) && o < |s.procs| && Owned(s.procs[o]) == Some(a) && a < |s.acts|
    ensures AllClean(s, moves) && OnlyMoved(s, After(s, moves), o, a)
    ensures After(s, moves).active == s.active - {s.acts[a].id}
    decreases Remaining(s.procs[o])
  {
    hide Step, Sound, Clean;
    var action := Advance(o, Onward(s.procs[o]));
    OnwardStep(s, o, a);
    NextSound(s, action);
    var t := Next(s, action);
    var rest := [];
    if Remaining(s.procs[o]) > 0 { rest := OwnerRemovesEntry(t, o, a); }
    AfterFirst(s, action, rest);
    moves := [action] + rest;
  }

  /** An activation is both cancelled and completed. */
  predicate Betrayed(s: State) {
    exists a :: 0 <= a < |s.acts| && s.acts[a].cancelled && s.acts[a].state == Completed
  }

  /** Whatever clean calls follow, no accepted cancellation is lost. */
  ghost predicate CancelHolds(s: State)
    requires Sound(s)
  {
    forall actions: seq<Action> {:trigger After(s, actions)} :: AllClean(s, actions) ==> !Betrayed(After(s, actions))
  }

  lemma Unlisted(s: State, k: nat, a: nat)
    requires Sound(s) && k < |s.procs| && s.procs[k] == Executing(a) && a < |s.acts| && s.acts[a].cancelled
    requires s.acts[a].id !in s.active
    ensures Clean(s, Advance(k, Verdict(true))) && Betrayed(Next(s, Advance(k, Verdict(true))))
  {
    var t := Next(s, Advance(k, Verdict(true)));
    assert t.acts[a].cancelled && t.acts[a].state == Completed;
  }

  lemma CancelFlags(s: State, id: Id)
    requires Sound(s) && id in s.active && s.acts[s.active[id]].state == Running
    ensures Clean(s, CallCancel(id))
    ensures var t := Next(s, CallCancel(id));
            && t.active == s.active && |t.procs| == |s.procs| + 1 && t.procs[..|s.procs|] == s.procs
            && t.acts == s.acts[s.active[id] := s.acts[s.active[id]].(cancelled := true)]
  {
  }

  lemma Registers(s: State, k: nat)
    requires Sound(s) && k < |s.procs| && s.procs[k].Preparing? && !s.stopped
    ensures var t := Next(s, Advance(k, Fine));
            && t.acts == s.acts + [Activation(s.procs[k].id, false, Running, false)]
            && t.active == s.active[s.procs[k].id := |s.acts|]
            && t.procs == s.procs[k := Executing(|s.acts|)]
  {
  }

  /** Registering a busy run: the earlier call removes the new entry, and a cancelled run completes. */
  lemma OverlapLosesCancel(s: State, k: nat)
    requires Sound(s) && k < |s.procs| && s.procs[k].Preparing? && !s.stopped && Busy(s, s.procs[k].id)
    ensures Sound(Next(s, Advance(k, Fine))) && !CancelHolds(Next(s, Advance(k, Fine)))
  {
    hide Next, Clean, Sound, Betrayed;
    var id, b := s.procs[k].id, |s.acts|;
    var o :| 0 <= o < |s.procs| && OwnsRun(s, s.procs[o], id);
    var a := Owned(s.procs[o]).value;
    NextSound(s, Advance(k, Fine));
    Registers(s, k);
    var s1 := Next(s, Advance(k, Fine));
    NextSound(s1, CallCancel(id));
    CancelFlags(s1, id);
    var s2 := Next(s1, CallCancel(id));
    var moves := OwnerRemovesEntry(s2, o, a);
    var s3 := After(s2, moves);
    assert s3.procs[k] == Executing(b) && s3.acts[b] == s2.acts[b];
    Unlisted(s3, k, b);
    var last := Advance(k, Verdict(true));
    AfterAppend(s2, moves, last);
    assert (moves + [last])[..|moves|] == moves;
    AfterFirst(s1, CallCancel(id), moves + [last]);
    assert Betrayed(After(s1, [CallCancel(id)] + (moves + [last])));
  }

  /**
   * Starting a run keeps every accepted cancellation exactly when no call in flight still owns an
   * activation of it: the resume's state check does not see an execution still closing.
   */
  lemma CancelHoldsIffNotBusy(s: State, k: nat)
    requires Sound(s) && Exclusive(s) && k < |s.procs| && s.procs[k].Preparing? && !s.stopped
    ensures Sound(Next(s, Advance(k, Fine)))
    ensures CancelHolds(Next(s, Advance(k, Fine))) <==> !Busy(s, s.procs[k].id)
  {
    NextSound(s, Advance(k, Fine));
    if Busy(s, s.procs[k].id) {
      OverlapLosesCancel(s, k);
    } else {
      ExclusiveNext(s, Advance(k, Fine));
      var t := Next(s, Advance(k, Fine));
      forall actions: seq<Action> | AllClean(t, actions)
        ensures !Betrayed(After(t, actions))
      {
        ExclusiveAfter(t, actions);
      }
    }
  }

  // ------------------------------------------------------------------- a run that gets there

  /** A run is created and paused by an error; its execution is still closing. */
  const PAUSING := [
    Call(0, false), Advance(0, Fine), Advance(0, Fine), Advance(0, Fine), Advance(0, Fine),
    Advance(0, Throws), Advance(0, Captured)]

  /** It is resumed meanwhile. */
  const RESUMING := [Call(0, true), Advance(1, Fine), Advance(1, Fine), Advance(1, Fine)]

  /** The resumed run is cancelled, the first execution closes, the second one is verified. */
  const LOSING := [CallCancel(0), Advance(0, Fine), Advance(1, Verdict(true))]

  const PAUSED_RUN := Activation(0, false, Paused, false)
  const AFTER_PAUSING := State(false, true, [PAUSED_RUN], map[0 := 0], [Closing(0)])
  const AFTER_RESUMING :=
    State(false, true, [PAUSED_RUN, Activation(0, false, Running, false)], map[0 := 1], [Closing(0), Executing(1)])

  lemma {:induction false} AfterConcat(s: State, a: seq<Action>, b: seq<Action>)
    requires Sound(s)
    ensures After(s, a + b) == After(After(s, a), b)
  {
    hide Next, Sound;
    if b == [] {
      assert a + b == a;
    } else {
      assert (a + b)[..|a + b| - 1] == a + b[..|b| - 1];
      AfterConcat(s, a, b[..|b| - 1]);
    }
  }

  /** One more action, to a known state. */
  lemma Then(s: State, actions: seq<Action>, k: nat, was: State, now: State)
    requires Sound(s) && k < |actions| && After(s, actions[..k]) == was && Next(was, actions[k]) == now
    ensures After(s, actions[..k + 1]) == now
  {
    hide After, Next, Sound;
    AfterAppend(s, actions[..k], actions[k]);
    assert actions[..k] + [actions[k]] == actions[..k + 1];
  }

  lemma CreatingRuns()
    ensures After(START, PAUSING[..4]) == State(false, true, [], map[], [Preparing(0, false)])
  {
    hide After;
    var one := (hydrated, p) => State(false, hydrated, [], map[], [p]);
    AfterNothing(START, PAUSING);
    Then(START, PAUSING, 0, START, one(false, Admitting(0, false)));
    Then(START, PAUSING, 1, one(false, Admitting(0, false)), one(false, Reading(0, false)));
    Then(START, PAUSING, 2, one(false, Reading(0, false)), one(true, Loaded(0, false)));
    Then(START, PAUSING, 3, one(true, Loaded(0, false)), one(true, Preparing(0, false)));
  }

  lemma PausingRuns()
    ensures After(START, PAUSING) == AFTER_PAUSING
  {
    hide After;
    CreatingRuns();
    var one := p => State(false, true, [Activation(0, false, Running, false)], map[0 := 0], [p]);
    Then(START, PAUSING, 4, State(false, true, [], map[], [Preparing(0, false)]), one(Executing(0)));
    Then(START, PAUSING, 5, one(Executing(0)), one(Recovering(0)));
    Then(START, PAUSING, 6, one(Recovering(0)), AFTER_PAUSING);
    assert PAUSING[..7] == PAUSING;
  }

  lemma AfterNothing(s: State, actions: seq<Action>)
    requires Sound(s)
    ensures After(s, actions[..0]) == s
  {
  }

  lemma ResumingRuns()
    ensures Sound(AFTER_PAUSING) && After(AFTER_PAUSING, RESUMING) == AFTER_RESUMING
  {
    hide After;
    var two := p => State(false, true, [PAUSED_RUN], map[0 := 0], [Closing(0), p]);
    AfterNothing(AFTER_PAUSING, RESUMING);
    Then(AFTER_PAUSING, RESUMING, 0, AFTER_PAUSING, two(Admitting(0, true)));
    Then(AFTER_PAUSING, RESUMING, 1, two(Admitting(0, true)), two(Loaded(0, true)));
    Then(AFTER_PAUSING, RESUMING, 2, two(Loaded(0, true)), two(Preparing(0, true)));
    Then(AFTER_PAUSING, RESUMING, 3, two(Preparing(0, true)), AFTER_RESUMING);
    assert RESUMING[..4] == RESUMING;
  }

  lemma LosingRuns()
    ensures Sound(AFTER_RESUMING) && Betrayed(After(AFTER_RESUMING, LOSING))
  {
    hide After;
    var a := AFTER_RESUMING;
    var flagged := a.acts[1 := a.acts[1].(cancelled := true)];
    var b := a.(acts := flagged, procs := [Closing(0), Executing(1), Cancelling(AwaitVerifier(1))]);
    var c := b.(active := map[], procs := [Gone, Executing(1), Cancelling(AwaitVerifier(1))]);
    var d := c.(acts := flagged[1 := Activation(0, true, Completed, true)],
                procs := [Gone, Settled(1), Cancelling(AwaitVerifier(1))]);
    AfterNothing(a, LOSING);
    Then(a, LOSING, 0, a, b);
    Then(a, LOSING, 1, b, c);
    Then(a, LOSING, 2, c, d);
    assert LOSING[..3] == LOSING;
    assert d.acts[1].cancelled && d.acts[1].state == Completed;
  }

  /** From the empty service: a paused run resumed while it is closing, cancelled, and completed. */
  lemma CancelLostFromStart()
    ensures After(START, PAUSING).acts == [PAUSED_RUN] && After(START, PAUSING).procs == [Closing(0)]
    ensures Betrayed(After(START, PAUSING + RESUMING + LOSING))
  {
    hide After, Betrayed;
    PausingRuns();
    ResumingRuns();
    LosingRuns();
    AfterConcat(START, PAUSING + RESUMING, LOSING);
    AfterConcat(START, PAUSING, RESUMING);
  }
}
