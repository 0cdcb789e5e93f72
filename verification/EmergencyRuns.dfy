/** What a call does when nothing else moves: the paths the interleavings of `EmergencyStop` are made of. */
module EmergencyRuns {
  import opened Wrappers
  import opened EmergencyStop

  /** The service with one more activation, held by one more call. */
  function With(s: State, a: Activation, p: Proc, listed: bool): (t: State)
    requires Sound(s) && (ActOf(p) == None || ActOf(p) == Some(|s.acts|))
    ensures Sound(t)
  {
    s.(acts := s.acts + [a],
       active := if listed then s.active[a.id := |s.acts|] else s.active - {a.id},
       procs := s.procs + [p])
  }

  function WithCall(s: State, p: Proc): (t: State)
    requires Sound(s) && ActOf(p) == None
    ensures Sound(t)
  {
    s.(procs := s.procs + [p])
  }

  /** The call, admitted, up to its registration. */
  function Entering(s: State, id: Id, resumed: bool): seq<Action> {
    var k := |s.procs|;
    [Call(id, resumed), Advance(k, Fine), Advance(k, Fine)]
  }

  lemma CallLands(s: State, p: Proc)
    requires Sound(s) && ActOf(p) == None
    ensures WithCall(s, p).procs[|s.procs|] == p
    ensures forall q :: ActOf(q) == None ==>
            WithCall(s, p).(procs := WithCall(s, p).procs[|s.procs| := q]) == WithCall(s, q)
  {
  }

  lemma Enters(s: State, id: Id, resumed: bool)
    requires Sound(s) && s.hydrated && !s.stopped
    ensures var k := |s.procs|;
      && Next(s, Call(id, resumed)) == WithCall(s, Admitting(id, resumed))
      && Next(WithCall(s, Admitting(id, resumed)), Advance(k, Fine)) == WithCall(s, Loaded(id, resumed))
      && Next(WithCall(s, Loaded(id, resumed)), Advance(k, Fine)) == WithCall(s, Preparing(id, resumed))
  {
    CallLands(s, Admitting(id, resumed));
    CallLands(s, Loaded(id, resumed));
  }

  lemma EnteringRuns(s: State, id: Id, resumed: bool)
    requires Sound(s) && s.hydrated && !s.stopped
    ensures After(s, Entering(s, id, resumed)) == WithCall(s, Preparing(id, resumed))
  {
    hide After, Next, WithCall;
    var k, actions := |s.procs|, Entering(s, id, resumed);
    Enters(s, id, resumed);
    AfterNothing(s, actions);
    Then(s, actions, 0, s, WithCall(s, Admitting(id, resumed)));
    Then(s, actions, 1, WithCall(s, Admitting(id, resumed)), WithCall(s, Loaded(id, resumed)));
    Then(s, actions, 2, WithCall(s, Loaded(id, resumed)), WithCall(s, Preparing(id, resumed)));
    assert actions[..3] == actions;
  }

  lemma Landed(s: State, a: Activation, p: Proc)
    requires Sound(s) && (ActOf(p) == None || ActOf(p) == Some(|s.acts|))
    ensures With(s, a, p, true).procs[|s.procs|] == p && With(s, a, p, true).acts[|s.acts|] == a
  {
  }

  // ----- single steps of the new call -----

  lemma Registers(s: State, id: Id, resumed: bool)
    requires Sound(s) && !s.stopped
    ensures var t := WithCall(s, Preparing(id, resumed));
      && Next(t, Advance(|s.procs|, Fine)) == With(s, Activation(id, false, Running, false), Executing(|s.acts|), true)
      && Next(t, Advance(|s.procs|, Throws)) == WithCall(s, Gone)
  {
    CallLands(s, Preparing(id, resumed));
    var t := WithCall(s, Preparing(id, resumed));
    assert t.procs[|s.procs| := Executing(|s.acts|)] == s.procs + [Executing(|s.acts|)];
  }

  lemma RegistersStopped(s: State, id: Id, resumed: bool)
    requires Sound(s) && s.stopped
    ensures var t := WithCall(s, Preparing(id, resumed));
      Next(t, Advance(|s.procs|, Fine)) ==
        With(s, Activation(id, true, if resumed then Running else Queued, false), Refusing(AwaitVerifier(|s.acts|)),
            true)
  {
    CallLands(s, Preparing(id, resumed));
    var t, q := WithCall(s, Preparing(id, resumed)), Refusing(AwaitVerifier(|s.acts|));
    assert t.procs[|s.procs| := q] == s.procs + [q];
  }

  /** A step that leaves the shared state alone. */
  lemma Moves(s: State, a: Activation, p: Proc, answer: Answer, q: Proc)
    requires Sound(s) && ActOf(p) == Some(|s.acts|)
    requires Plan(With(s, a, p, true), p, answer) == (Nothing, q) && (ActOf(q) == None || ActOf(q) == Some(|s.acts|))
    ensures Next(With(s, a, p, true), Advance(|s.procs|, answer)) == With(s, a, q, true)
  {
    hide Plan;
    var t := With(s, a, p, true);
    assert t.procs[|s.procs|] == p && t.procs[|s.procs| := q] == s.procs + [q];
  }

  /** A step that sets the state of the run. */
  lemma Sets(s: State, a: Activation, p: Proc, answer: Answer, state: RunState, q: Proc)
    requires Sound(s) && ActOf(p) == Some(|s.acts|)
    requires Plan(With(s, a, p, true), p, answer) == (SetState(|s.acts|, state), q)
    requires ActOf(q) == None || ActOf(q) == Some(|s.acts|)
    ensures Next(With(s, a, p, true), Advance(|s.procs|, answer)) ==
            With(s, a.(state := state, finished := a.finished || Final(state)), q, true)
  {
    hide Plan;
    var t, b := With(s, a, p, true), a.(state := state, finished := a.finished || Final(state));
    assert t.procs[|s.procs|] == p && t.procs[|s.procs| := q] == s.procs + [q];
    assert t.acts[|s.acts|] == a && t.acts[|s.acts| := b] == s.acts + [b];
  }

  /** A step that takes the run out of the table. */
  lemma Leaves(s: State, a: Activation, p: Proc, answer: Answer)
    requires Sound(s) && ActOf(p) == Some(|s.acts|)
    requires Plan(With(s, a, p, true), p, answer) == (Leave(a.id), Gone)
    ensures Next(With(s, a, p, true), Advance(|s.procs|, answer)) == With(s, a, Gone, false)
  {
    hide Plan;
    var t := With(s, a, p, true);
    assert t.procs[|s.procs|] == p && t.procs[|s.procs| := Gone] == s.procs + [Gone];
    assert t.active - {a.id} == s.active - {a.id};
  }

  // ----- whole paths -----

  lemma RunningSteps(s: State, id: Id, state: RunState, verified: bool)
    requires Sound(s) && state == (if verified then Completed else Failed)
    ensures var k, n := |s.procs|, |s.acts|;
      var begun, done := Activation(id, false, Running, false), Activation(id, false, state, true);
      && Next(With(s, begun, Executing(n), true), Advance(k, Verdict(verified))) == With(s, done, Settled(n), true)
      && Next(With(s, done, Settled(n), true), Advance(k, Fine)) == With(s, done, Closing(n), true)
      && Next(With(s, done, Closing(n), true), Advance(k, Fine)) == With(s, done, Gone, false)
  {
    hide Next, With;
    var n := |s.acts|;
    var begun, done := Activation(id, false, Running, false), Activation(id, false, state, true);
    Landed(s, begun, Executing(n));
    Landed(s, done, Settled(n));
    Landed(s, done, Closing(n));
    Uncancelled(s, begun);
    Sets(s, begun, Executing(n), Verdict(verified), state, Settled(n));
    Moves(s, done, Settled(n), Fine, Closing(n));
    Leaves(s, done, Closing(n), Fine);
  }

  lemma Uncancelled(s: State, a: Activation)
    requires Sound(s) && !a.cancelled
    ensures !CancelledAt(With(s, a, Executing(|s.acts|), true), a.id)
  {
  }

  /** A started call that meets no trouble runs, concludes with its verdict, and leaves the table. */
  lemma RunsToEnd(s: State, id: Id, resumed: bool, verified: bool)
    requires Sound(s) && !s.stopped
    ensures var k := |s.procs|;
      var path := [Advance(k, Fine), Advance(k, Verdict(verified)), Advance(k, Fine), Advance(k, Fine)];
      After(WithCall(s, Preparing(id, resumed)), path) ==
        With(s, Activation(id, false, if verified then Completed else Failed, true), Gone, false)
  {
    hide After, Next, With, WithCall, Plan;
    var n, k := |s.acts|, |s.procs|;
    var path := [Advance(k, Fine), Advance(k, Verdict(verified)), Advance(k, Fine), Advance(k, Fine)];
    var state := if verified then Completed else Failed;
    var begun, done := Activation(id, false, Running, false), Activation(id, false, state, true);
    Registers(s, id, resumed);
    RunningSteps(s, id, state, verified);
    var t := WithCall(s, Preparing(id, resumed));
    AfterNothing(t, path);
    Then(t, path, 0, t, With(s, begun, Executing(n), true));
    Then(t, path, 1, With(s, begun, Executing(n), true), With(s, done, Settled(n), true));
    Then(t, path, 2, With(s, done, Settled(n), true), With(s, done, Closing(n), true));
    Then(t, path, 3, With(s, done, Closing(n), true), With(s, done, Gone, false));
    assert path[..4] == path;
  }

  /** What the error path makes of the activation. */
  function Recovered(a: Activation, answer: Answer): Activation {
    if answer == StoredCancelled then a
    else if answer == Captured then a.(state := Paused)
    else a.(state := Failed, finished := true)
  }

  lemma RecoveringSteps(s: State, a: Activation, answer: Answer)
    requires Sound(s)
    ensures var k, n, b := |s.procs|, |s.acts|, Recovered(a, answer);
      && Next(With(s, a, Settled(n), true), Advance(k, Throws)) == With(s, a, Recovering(n), true)
      && Next(With(s, a, Recovering(n), true), Advance(k, answer)) == With(s, b, Closing(n), true)
      && Next(With(s, b, Closing(n), true), Advance(k, Fine)) == With(s, b, Gone, false)
  {
    hide Next, With;
    var n, b := |s.acts|, Recovered(a, answer);
    Landed(s, a, Settled(n));
    Landed(s, a, Recovering(n));
    Landed(s, b, Closing(n));
    Moves(s, a, Settled(n), Throws, Recovering(n));
    if answer == StoredCancelled {
      Moves(s, a, Recovering(n), answer, Closing(n));
    } else {
      Sets(s, a, Recovering(n), answer, if answer == Captured then Paused else Failed, Closing(n));
    }
    Leaves(s, b, Closing(n), Fine);
  }

  /**
   * Trouble after the verdict is set: the error path stores what it can, pausing the run if a capsule
   * was captured and failing it if not, keeps a stored cancellation, and leaves the table.
   */
  lemma RecoversToEnd(s: State, a: Activation, answer: Answer)
    requires Sound(s)
    ensures var k, n := |s.procs|, |s.acts|;
      After(With(s, a, Settled(n), true), [Advance(k, Throws), Advance(k, answer), Advance(k, Fine)]) ==
        With(s, Recovered(a, answer), Gone, false)
  {
    hide After, Next, With, Plan, Recovered;
    var k, n, b := |s.procs|, |s.acts|, Recovered(a, answer);
    var path := [Advance(k, Throws), Advance(k, answer), Advance(k, Fine)];
    RecoveringSteps(s, a, answer);
    var t := With(s, a, Settled(n), true);
    AfterNothing(t, path);
    Then(t, path, 0, t, With(s, a, Recovering(n), true));
    Then(t, path, 1, With(s, a, Recovering(n), true), With(s, b, Closing(n), true));
    Then(t, path, 2, With(s, b, Closing(n), true), With(s, b, Gone, false));
    assert path[..3] == path;
  }

  /** The activation of a call that finds the stop set only when it registers. */
  function Refused(id: Id, resumed: bool): Activation {
    Activation(id, true, if resumed then Running else Queued, false)
  }

  /** Such a call cancels itself and leaves the table. */
  lemma RefusedToEnd(s: State, id: Id, resumed: bool)
    requires Sound(s) && s.stopped
    ensures var k := |s.procs|;
      After(WithCall(s, Preparing(id, resumed)), [Advance(k, Fine), Advance(k, Fine), Advance(k, Fine)]) ==
        With(s, Refused(id, resumed).(state := Cancelled), Gone, false)
  {
    hide After, Next, With, WithCall, Plan;
    var k, n, t := |s.procs|, |s.acts|, WithCall(s, Preparing(id, resumed));
    var path := [Advance(k, Fine), Advance(k, Fine), Advance(k, Fine)];
    var a := Refused(id, resumed);
    var b := a.(state := Cancelled);
    var first, second := Refusing(AwaitVerifier(n)), Refusing(AwaitStore(n));
    RegistersStopped(s, id, resumed);
    RefusingSteps(s, a);
    AfterNothing(t, path);
    Then(t, path, 0, t, With(s, a, first, true));
    Then(t, path, 1, With(s, a, first, true), With(s, b, second, true));
    Then(t, path, 2, With(s, b, second, true), With(s, b, Gone, false));
    assert path[..3] == path;
  }

  lemma RefusingSteps(s: State, a: Activation)
    requires Sound(s) && a.state != Completed && a.state != Failed
    ensures var k, n, b := |s.procs|, |s.acts|, a.(state := Cancelled);
      && Next(With(s, a, Refusing(AwaitVerifier(n)), true), Advance(k, Fine)) ==
           With(s, b, Refusing(AwaitStore(n)), true)
      && Next(With(s, b, Refusing(AwaitStore(n)), true), Advance(k, Fine)) == With(s, b, Gone, false)
      && Next(With(s, a, Refusing(AwaitVerifier(n)), true), Advance(k, Throws)) == With(s, a, Gone, true)
  {
    hide Next, With;
    var n, b := |s.acts|, a.(state := Cancelled);
    Landed(s, a, Refusing(AwaitVerifier(n)));
    Landed(s, b, Refusing(AwaitStore(n)));
    Sets(s, a, Refusing(AwaitVerifier(n)), Fine, Cancelled, Refusing(AwaitStore(n)));
    Leaves(s, b, Refusing(AwaitStore(n)), Fine);
    Moves(s, a, Refusing(AwaitVerifier(n)), Throws, Gone);
  }

  /** If its store fails meanwhile, the run stays in the table, flagged but not marked. */
  lemma RefusedThenStuck(s: State, id: Id, resumed: bool)
    requires Sound(s) && s.stopped
    ensures var k := |s.procs|;
      After(WithCall(s, Preparing(id, resumed)), [Advance(k, Fine), Advance(k, Throws)]) ==
        With(s, Refused(id, resumed), Gone, true)
  {
    hide After, Next, With, WithCall, Plan;
    var k, n, t := |s.procs|, |s.acts|, WithCall(s, Preparing(id, resumed));
    var path := [Advance(k, Fine), Advance(k, Throws)];
    var a := Refused(id, resumed);
    RegistersStopped(s, id, resumed);
    RefusingSteps(s, a);
    AfterNothing(t, path);
    Then(t, path, 0, t, With(s, a, Refusing(AwaitVerifier(n)), true));
    Then(t, path, 1, With(s, a, Refusing(AwaitVerifier(n)), true), With(s, a, Gone, true));
    assert path[..2] == path;
  }

  /** An accepted cancel marks the run cancelled and returns; if its store fails the flag alone is left. */
  lemma CancelToEnd(s: State, a: Activation)
    requires Sound(s)
    ensures var k, n := |s.procs|, |s.acts|;
      var b := a.(state := Cancelled);
      && Next(With(s, a, Cancelling(AwaitVerifier(n)), true), Advance(k, Fine)) ==
           With(s, b, Cancelling(AwaitStore(n)), true)
      && Next(With(s, b, Cancelling(AwaitStore(n)), true), Advance(k, Fine)) == With(s, b, Gone, true)
      && Next(With(s, a, Cancelling(AwaitVerifier(n)), true), Advance(k, Throws)) == With(s, a, Gone, true)
      && Next(With(s, b, Cancelling(AwaitStore(n)), true), Advance(k, Throws)) == With(s, b, Gone, true)
  {
    hide Next, With;
    var n, b := |s.acts|, a.(state := Cancelled);
    Landed(s, a, Cancelling(AwaitVerifier(n)));
    Landed(s, b, Cancelling(AwaitStore(n)));
    Sets(s, a, Cancelling(AwaitVerifier(n)), Fine, Cancelled, Cancelling(AwaitStore(n)));
    Moves(s, b, Cancelling(AwaitStore(n)), Fine, Gone);
    Moves(s, a, Cancelling(AwaitVerifier(n)), Throws, Gone);
    Moves(s, b, Cancelling(AwaitStore(n)), Throws, Gone);
  }

  /** A stop that has nothing left to cancel returns; one whose store fails never does. */
  lemma SweepEnds(s: State, todo: set<Id>)
    requires Sound(s)
    ensures var k := |s.procs|;
      && Next(WithCall(s, Sweeping({}, None)), Advance(k, Fine)) == WithCall(s, Swept)
      && (todo != {} ==> Next(WithCall(s, Sweeping(todo, None)), Advance(k, Throws)) == WithCall(s, Gone))
  {
    CallLands(s, Sweeping({}, None));
    CallLands(s, Sweeping(todo, None));
  }

  /** Nor does one whose store fails while it cancels a run. */
  lemma SweepStuck(s: State, a: Activation, todo: set<Id>, c: Cancel)
    requires Sound(s) && c.act == |s.acts|
    ensures Next(With(s, a, Sweeping(todo, Some(c)), true), Advance(|s.procs|, Throws)) == With(s, a, Gone, true)
  {
    hide Next, With;
    Landed(s, a, Sweeping(todo, Some(c)));
    Moves(s, a, Sweeping(todo, Some(c)), Throws, Gone);
  }
}
