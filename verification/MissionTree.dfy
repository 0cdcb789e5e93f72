/** The mission graph: what may be handed on, and which nodes may run. */
module MissionTree {
  import opened Wrappers

  type Id = string

  datatype NodeState = Blocked | Ready | Running | Done | CancelledNode

  datatype Verification = Verified | Cancelled | Pending | Unverified

  datatype Trust = MergeEligible | NotEligible

  datatype TrustBinding = TrustBinding(runId: Id, candidateId: Id, digest: string, verificationId: Id)

  datatype ExecutionBinding = ExecutionBinding(missionId: Id, nodeId: Id, taskId: Id, runId: Id)

  datatype Node = Node(
    id: Id, parentId: Option<Id>, dependencyIds: seq<Id>, state: NodeState, soloNative: bool,
    inputs: seq<string>, outputs: seq<string>, verification: Verification,
    execution: Option<ExecutionBinding>, trust: Option<Trust>, trustBinding: Option<TrustBinding>, legacy: bool)

  type Nodes = map<Id, Node>

  /** Nothing stands against handing this node's result on. */
  predicate Passes(n: Node) {
    && n.verification == Verified
    && match n.trust
       case None => n.legacy
       case Some(t) =>
         && t == MergeEligible && n.trustBinding.Some?
         && (n.execution.Some? ==> n.trustBinding.value.runId == n.execution.value.runId)
  }

  datatype Objection = NotVerified | NotMergeEligible | NoIdentity | AnotherRun | NoTrustBasis

  /** The first thing that stands against handing a node's result on. */
  method HandoffBlockedReason(n: Node) returns (reason: Option<Objection>)
    ensures reason.None? <==> Passes(n)
    ensures reason == Some(NotVerified) <==> n.verification != Verified
    ensures reason == Some(AnotherRun) ==> n.trust == Some(MergeEligible)
  {
    if n.verification != Verified { return Some(NotVerified); }
    if n.trust.Some? && n.trust.value != MergeEligible { return Some(NotMergeEligible); }
    if n.trust.Some? && n.trustBinding.None? { return Some(NoIdentity); }
    if n.trust.Some? && n.trustBinding.Some? && n.execution.Some?
       && n.trustBinding.value.runId != n.execution.value.runId {
      return Some(AnotherRun);
    }
    if n.trust.None? && !n.legacy { return Some(NoTrustBasis); }
    return None;
  }

  /** Every dependency is known and passes. */
  predicate Free(nodes: Nodes, n: Node) {
    forall i :: 0 <= i < |n.dependencyIds| ==> n.dependencyIds[i] in nodes && Passes(nodes[n.dependencyIds[i]])
  }

  /** The look at the dependencies reaches an unknown one: all before it pass. */
  ghost predicate Dangles(nodes: Nodes, n: Node) {
    exists i :: DanglesAt(nodes, n, i)
  }

  predicate DanglesAt(nodes: Nodes, n: Node, i: int) {
    && 0 <= i < |n.dependencyIds| && n.dependencyIds[i] !in nodes
    && forall j :: 0 <= j < i ==> n.dependencyIds[j] in nodes && Passes(nodes[n.dependencyIds[j]])
  }

  predicate Gateable(n: Node) {
    n.state == Blocked || n.state == Ready
  }

  function Gate(nodes: Nodes, n: Node): Node {
    if Gateable(n) then n.(state := if Free(nodes, n) then Ready else Blocked) else n
  }

  /** Every node gated against the same graph. */
  function Regated(nodes: Nodes): Nodes {
    map id | id in nodes :: Gate(nodes, nodes[id])
  }

  /** A node that is neither done, running nor cancelled is ready iff its dependencies all pass. */
  ghost predicate Gated(nodes: Nodes) {
    forall id :: id in nodes && Gateable(nodes[id]) ==> (nodes[id].state == Ready <==> Free(nodes, nodes[id]))
  }

  /** Only the states of nodes differ. */
  predicate SameButStates(a: Nodes, b: Nodes) {
    a.Keys == b.Keys && forall id :: id in a ==> b[id] == a[id].(state := b[id].state)
  }

  lemma StatesDoNotCount(a: Nodes, b: Nodes, n: Node)
    requires SameButStates(a, b)
    ensures Free(a, n) == Free(b, n) && Dangles(a, n) == Dangles(b, n)
  {
    assert forall id :: id in a ==> Passes(a[id]) == Passes(b[id]);
    forall i ensures DanglesAt(a, n, i) == DanglesAt(b, n, i) {
    }
  }

  /** One pass settles every gate, and a second one changes nothing. */
  lemma {:induction false} RegatedIsSettled(nodes: Nodes)
    ensures Gated(Regated(nodes)) && SameButStates(nodes, Regated(nodes)) && Regated(Regated(nodes)) == Regated(nodes)
  {
    var after := Regated(nodes);
    assert SameButStates(nodes, after);
    forall id | id in nodes
      ensures Free(after, after[id]) == Free(nodes, nodes[id])
    {
      StatesDoNotCount(nodes, after, after[id]);
      assert after[id].dependencyIds == nodes[id].dependencyIds;
    }
    assert forall id :: id in nodes ==> Gate(after, after[id]) == after[id];
  }

  /** The graph once the pass has come past some of its nodes. */
  function RegatedOver(nodes: Nodes, past: seq<Id>): Nodes {
    map id | id in nodes :: if id in past then Gate(nodes, nodes[id]) else nodes[id]
  }

  lemma RegatedNext(nodes: Nodes, past: seq<Id>, id: Id)
    requires id in nodes
    ensures RegatedOver(nodes, past + [id]) == RegatedOver(nodes, past)[id := Gate(nodes, nodes[id])]
    ensures SameButStates(nodes, RegatedOver(nodes, past)) && RegatedOver(nodes, past).Keys == nodes.Keys
    ensures RegatedOver(nodes, past)[id].dependencyIds == nodes[id].dependencyIds
    ensures Gateable(RegatedOver(nodes, past)[id]) == Gateable(nodes[id])
    ensures Gate(nodes, nodes[id]) ==
            if Gateable(nodes[id]) then
                RegatedOver(nodes, past)[id].(state := if Free(nodes, nodes[id]) then Ready else Blocked)
            else RegatedOver(nodes, past)[id]
  {
    hide Free;
  }

  lemma SameDependencies(nodes: Nodes, a: Node, b: Node)
    requires a.dependencyIds == b.dependencyIds
    ensures Free(nodes, a) == Free(nodes, b) && Dangles(nodes, a) == Dangles(nodes, b)
  {
    assert forall i :: DanglesAt(nodes, a, i) == DanglesAt(nodes, b, i);
  }

  lemma RegatedEnds(nodes: Nodes, past: seq<Id>)
    requires forall id :: id in nodes ==> id in past
    ensures RegatedOver(nodes, past) == Regated(nodes)
  {
  }

  lemma RegatedStarts(nodes: Nodes)
    ensures RegatedOver(nodes, []) == nodes && SameButStates(nodes, nodes)
  {
  }

  /** Nodes stay, and keep the execution they are bound to; `overwritten` may be replaced. */
  predicate Persists(before: Nodes, after: Nodes, overwritten: set<Id>) {
    && before.Keys <= after.Keys
    && forall id :: id in before && id !in overwritten ==>
         after[id].id == before[id].id && (before[id].execution.Some? ==> after[id].execution == before[id].execution)
  }

  lemma PersistsOn(a: Nodes, b: Nodes, c: Nodes, overwritten: set<Id>)
    requires Persists(a, b, overwritten) && SameButStates(b, c)
    ensures Persists(a, c, overwritten)
  {
  }

  lemma PersistsSame(nodes: Nodes, overwritten: set<Id>)
    ensures Persists(nodes, nodes, overwritten)
  {
  }

  lemma PersistsReplaced(nodes: Nodes, n: Node)
    ensures Persists(nodes, nodes[n.id := n], {n.id})
  {
  }

  /** The node is there and not bound to another execution. */
  predicate Bindable(nodes: Nodes, id: Id, binding: ExecutionBinding) {
    id in nodes && (nodes[id].execution.None? || nodes[id].execution.value == binding)
  }

  /** Every node but these is as it was, up to its gate. */
  predicate Framed(before: Nodes, after: Nodes, touched: set<Id>) {
    && before.Keys <= after.Keys
    && forall id :: id in before && id !in touched ==> after[id] == before[id].(state := after[id].state)
  }

  lemma FramedOn(a: Nodes, b: Nodes, c: Nodes, touched: set<Id>)
    requires Framed(a, b, touched) && SameButStates(b, c)
    ensures Framed(a, c, touched)
  {
  }

  lemma FramedElsewhere(nodes: Nodes, id: Id)
    ensures Framed(nodes, nodes, {id})
  {
  }

  lemma FramedSet(nodes: Nodes, n: Node)
    ensures Framed(nodes, nodes[n.id := n], {n.id}) && Framed(nodes, nodes, {}) && Framed(nodes, nodes, {n.id})
  {
  }

  /** The graph with more nodes. */
  function Added(nodes: Nodes, more: seq<Node>): Nodes {
    if more == [] then nodes else Added(nodes, more[..|more| - 1])[more[|more| - 1].id := more[|more| - 1]]
  }

  /** The graph after the first `i` of the new nodes. */
  predicate Adding(was: Nodes, nodes: Nodes, more: seq<Node>, i: nat)
    requires i <= |more|
  {
    && nodes == Added(was, more[..i])
    && Persists(was, nodes, {}) && Framed(was, nodes, {})
    && nodes.Keys == was.Keys + Ids(more[..i])
    && (forall n :: n in more[..i] ==> n.id !in was && n.id in nodes && nodes[n.id] == n)
  }

  lemma AddingStarts(was: Nodes, more: seq<Node>)
    ensures Adding(was, was, more, 0)
  {
  }

  lemma AddingNext(was: Nodes, nodes: Nodes, more: seq<Node>, i: nat)
    requires i < |more| && Adding(was, nodes, more, i) && more[i].id !in nodes
    ensures Adding(was, nodes[more[i].id := more[i]], more, i + 1)
  {
    IdsNext(more, i);
    assert more[..i + 1][..i] == more[..i];
    assert forall n :: n in more[..i + 1] <==> n in more[..i] || n == more[i];
  }

  /** A child that may be added after those before it. */
  predicate Fresh(nodes: Nodes, parentId: Id, children: seq<Node>, i: nat)
    requires i < |children|
  {
    && children[i].parentId == Some(parentId) && children[i].id !in nodes
    && forall j :: 0 <= j < i ==> children[j].id != children[i].id
  }

  predicate Splittable(nodes: Nodes, parentId: Id, children: seq<Node>) {
    parentId in nodes && |children| >= 2 && forall i :: 0 <= i < |children| ==> Fresh(nodes, parentId, children, i)
  }

  /** No node that is to be gated waits for an unknown one, as far as it is looked at. */
  ghost predicate Closed(nodes: Nodes) {
    forall id :: id in nodes && Gateable(nodes[id]) ==> !Dangles(nodes, nodes[id])
  }

  lemma FreshIff(was: Nodes, nodes: Nodes, parentId: Id, children: seq<Node>, i: nat)
    requires i < |children| && Adding(was, nodes, children, i)
    ensures Fresh(was, parentId, children, i) <==> children[i].parentId == Some(parentId) && children[i].id !in nodes
  {
    var more := children[..i];
    assert forall j :: 0 <= j < i ==> more[j] == children[j];
    assert forall id :: id in Ids(more) <==> exists n :: n in more && n.id == id;
    if children[i].id in Ids(more) {
      var n :| n in more && n.id == children[i].id;
      var j :| 0 <= j < i && more[j] == n;
      assert children[j].id == children[i].id;
    } else {
      forall j | 0 <= j < i
        ensures children[j].id != children[i].id
      {
        assert more[j] in more;
      }
    }
  }

  lemma AddingEnds(was: Nodes, nodes: Nodes, more: seq<Node>)
    requires Adding(was, nodes, more, |more|)
    ensures nodes == Added(was, more) && Persists(was, nodes, {}) && Framed(was, nodes, {})
    ensures nodes.Keys == was.Keys + Ids(more)
    ensures forall n :: n in more ==> n.id !in was && n.id in nodes && nodes[n.id] == n
  {
    assert more[..|more|] == more;
  }

  lemma AddingKeeps(was: Nodes, nodes: Nodes, more: seq<Node>, i: nat)
    requires i <= |more| && Adding(was, nodes, more, i)
    ensures Persists(was, nodes, {}) && Framed(was, nodes, {})
  {
  }

  /** A node that is handed on, with one more output unless it has it. */
  function Promoted(n: Node, output: string): Node {
    n.(outputs := if output in n.outputs then n.outputs else n.outputs + [output], state := Done)
  }

  class MissionGraph {
    var ids: seq<Id>          // in insertion order
    var nodes: Nodes

    ghost predicate Valid()
      reads this
    {
      && (forall id :: id in ids <==> id in nodes)
      && (forall id :: id in nodes ==> nodes[id].id == id)
    }

    constructor (root: Node)
      ensures Valid() && nodes == map[root.id := root]
    {
      ids, nodes := [root.id], map[root.id := root];
    }

    method Set(n: Node)
      requires Valid()
      modifies this
      ensures Valid() && nodes == old(nodes)[n.id := n]
    {
      if n.id !in nodes { ids := ids + [n.id]; }
      nodes := nodes[n.id := n];
    }

    /** Looks the dependencies up one after the other; an unknown one is an error. */
    method CanRun(id: Id) returns (known: bool, free: bool)
      requires Valid() && id in nodes
      ensures known <==> !Dangles(nodes, nodes[id])
      ensures known ==> (free <==> Free(nodes, nodes[id]))
    {
      var deps := nodes[id].dependencyIds;
      var i := 0;
      while i < |deps|
        invariant 0 <= i <= |deps|
        invariant forall j :: 0 <= j < i ==> deps[j] in nodes && Passes(nodes[deps[j]])
      {
        if deps[i] !in nodes {
          assert DanglesAt(nodes, nodes[id], i);
          return false, false;
        }
        var reason := HandoffBlockedReason(nodes[deps[i]]);
        if reason.Some? { return true, false; }
        i := i + 1;
      }
      return true, true;
    }

    /** One pass over the nodes, in the order they came; it stops at a dangling dependency. */
    method RefreshGates() returns (ok: bool)
      requires Valid()
      modifies this`nodes
      ensures Valid() && SameButStates(old(nodes), nodes)
      ensures ok ==> nodes == Regated(old(nodes)) && Gated(nodes)
      ensures ok <==> Closed(old(nodes))
    {
      hide Free, Dangles, SameButStates, Passes, Gate, Regated, RegatedOver, Gated, DanglesAt;
      ghost var was := nodes;
      RegatedIsSettled(was);
      RegatedStarts(was);
      var i := 0;
      while i < |ids|
        invariant 0 <= i <= |ids| && Valid()
        invariant nodes == RegatedOver(was, ids[..i]) && SameButStates(was, nodes)
        invariant forall id :: id in ids[..i] && Gateable(was[id]) ==> !Dangles(was, was[id])
      {
        var id := ids[i];
        var n := nodes[id];
        SameKeys(was, nodes);
        assert ids[..i + 1] == ids[..i] + [id];
        GateOne(was, ids[..i], id);
        if Gateable(n) {
          var known, free := CanRun(id);
          if !known { return false; }
          nodes := nodes[id := n.(state := if free then Ready else Blocked)];
        }
        i := i + 1;
      }
      assert ids[..i] == ids;
      SameKeys(was, nodes);
      RegatedEnds(was, ids);
      return true;
    }

    /** Adds the children one by one; a failure leaves those already added. */
    method Split(parentId: Id, children: seq<Node>) returns (ok: bool)
      requires Valid()
      modifies this
      ensures Valid() && Persists(old(nodes), nodes, {}) && Framed(old(nodes), nodes, {})
      ensures ok <==> Splittable(old(nodes), parentId, children) && Closed(Added(old(nodes), children))
      ensures ok ==> nodes == Regated(Added(old(nodes), children))
      ensures ok ==> Gated(nodes) && |children| >= 2 && parentId in old(nodes)
      ensures ok ==> nodes.Keys == old(nodes).Keys + Ids(children)
      ensures ok ==> forall c :: c in children ==> c.id !in old(nodes) && nodes[c.id] == c.(state := nodes[c.id].state)
    {
      hide Gated, Regated, Adding, Added, Persists, Framed, Ids;
      AddingStarts(nodes, children);
      AddingKeeps(nodes, nodes, children, 0);
      if parentId !in nodes || |children| < 2 { return false; }
      ghost var was := nodes;
      var i := 0;
      while i < |children|
        invariant 0 <= i <= |children| && Valid() && Adding(was, nodes, children, i)
        invariant forall j :: 0 <= j < i ==> Fresh(was, parentId, children, j)
      {
        FreshIff(was, nodes, parentId, children, i);
        AddingKeeps(was, nodes, children, i);
        if children[i].parentId != Some(parentId) || children[i].id in nodes { return false; }
        AddingNext(was, nodes, children, i);
        Set(children[i]);
        i := i + 1;
      }
      AddingEnds(was, nodes, children);
      ghost var added := nodes;
      ok := RefreshGates();
      PersistsOn(was, added, nodes, {});
      FramedOn(was, added, nodes, {});
    }

    /** Every source passes, and its outputs become inputs of the merged node. */
    method Merge(sourceIds: seq<Id>, merged: Node) returns (ok: bool)
      requires Valid()
      modifies this
      ensures Valid() && Persists(old(nodes), nodes, {merged.id}) && Framed(old(nodes), nodes, {merged.id})
      ensures ok <==> |sourceIds| >= 2 && (forall id :: id in sourceIds ==> id in old(nodes) && Passes(old(nodes)[id]))
                      && Closed(old(nodes)[merged.id := Merged(old(nodes), sourceIds, merged)])
      ensures ok ==> nodes.Keys == old(nodes).Keys + {merged.id}
      ensures ok ==> Gated(nodes) && |sourceIds| >= 2
      ensures ok ==> (forall id :: id in sourceIds ==> id in old(nodes) && Passes(old(nodes)[id]))
      ensures ok ==> merged.id in nodes
      ensures ok ==>
                nodes[merged.id].(state := merged.state) ==
                Merged(old(nodes), sourceIds, merged)
      ensures !(|sourceIds| >= 2 && (forall id :: id in sourceIds ==> id in old(nodes) && Passes(old(nodes)[id]))) ==>
              !ok && nodes == old(nodes)
    {
      hide Gated, Regated, Merged, Framed, Persists, Closed;
      FramedSet(nodes, merged);
      PersistsSame(nodes, {merged.id});
      if |sourceIds| < 2 { return false; }
      var i := 0;
      while i < |sourceIds|
        invariant 0 <= i <= |sourceIds|
        invariant forall j :: 0 <= j < i ==> sourceIds[j] in nodes
      {
        if sourceIds[i] !in nodes { return false; }
        i := i + 1;
      }
      i := 0;
      while i < |sourceIds|
        invariant 0 <= i <= |sourceIds|
        invariant nodes == old(nodes) && ids == old(ids)
        invariant forall j :: 0 <= j < i ==> Passes(nodes[sourceIds[j]])
      {
        var reason := HandoffBlockedReason(nodes[sourceIds[i]]);
        if reason.Some? { return false; }
        i := i + 1;
      }
      ghost var was := nodes;
      var n := Merged(nodes, sourceIds, merged);
      MergedState(nodes, sourceIds, merged, n);
      FramedSet(was, n);
      PersistsReplaced(was, n);
      Set(n);
      ghost var added := nodes;
      ok := RefreshGates();
      PersistsOn(was, added, nodes, {merged.id});
      FramedOn(was, added, nodes, {merged.id});
    }

    /** A passing node is done, and keeps its outputs. */
    method Promote(id: Id, output: string) returns (ok: bool)
      requires Valid()
      modifies this
      ensures Valid() && Persists(old(nodes), nodes, {}) && nodes.Keys == old(nodes).Keys
      ensures Framed(old(nodes), nodes, {id})
      ensures ok <==> id in old(nodes) && Passes(old(nodes)[id])
                      && Closed(old(nodes)[id := Promoted(old(nodes)[id], output)])
      ensures ok ==> Gated(nodes) && id in old(nodes) && Passes(old(nodes)[id])
      ensures ok ==> nodes[id] == Promoted(old(nodes)[id], output)
      ensures !(id in old(nodes) && Passes(old(nodes)[id])) ==> !ok && nodes == old(nodes)
    {
      hide Gated, Regated, Framed, Closed, Passes;
      FramedElsewhere(nodes, id);
      if id !in nodes { return false; }
      var reason := HandoffBlockedReason(nodes[id]);
      if reason.Some? { return false; }
      ghost var was := nodes;
      FramedSet(was, Promoted(was[id], output));
      var n := nodes[id];
      if output !in n.outputs { n := n.(outputs := n.outputs + [output]); }
      Set(n.(state := Done));
      ghost var added := nodes;
      DoneStays(added, id);
      ok := RefreshGates();
      PersistsOn(was, added, nodes, {});
      FramedOn(was, added, nodes, {id});
    }

    /** Binding is write-once; the same binding again is a no-op. */
    method BindExecution(missionId: Id, id: Id, taskId: Id, runId: Id) returns (ok: bool)
      requires Valid()
      modifies this
      ensures Valid() && Persists(old(nodes), nodes, {}) && nodes.Keys == old(nodes).Keys
      ensures ok <==> Bindable(old(nodes), id, ExecutionBinding(missionId, id, taskId, runId))
      ensures ok ==> nodes[id] == old(nodes)[id].(execution := Some(ExecutionBinding(missionId, id, taskId, runId)))
      ensures forall other :: other in nodes && other != id ==> nodes[other] == old(nodes)[other]
    {
      if id !in nodes { return false; }
      var binding := ExecutionBinding(missionId, id, taskId, runId);
      var n := nodes[id];
      if n.execution.Some? { return n.execution.value == binding; }
      Set(n.(execution := Some(binding)));
      return true;
    }

    method SetVerification(id: Id, state: Verification, outputs: seq<string>, trust: Option<Trust>,
        binding: Option<TrustBinding>)
      returns (ok: bool)
      requires Valid()
      modifies this
      ensures Valid() && Persists(old(nodes), nodes, {}) && nodes.Keys == old(nodes).Keys &&
              Framed(old(nodes), nodes, {id})
      ensures ok <==> id in old(nodes) && !OtherRun(old(nodes)[id], trust, binding)
                      && Closed(old(nodes)[id := Verdict(old(nodes)[id], state, outputs, trust, binding)])
      ensures ok ==> id in nodes
      ensures ok ==>
                nodes[id].(state := Done) ==
                Verdict(old(nodes)[id], state, outputs, trust, binding).(state := Done)
      ensures ok ==> Gated(nodes) && id in nodes && nodes[id].verification == state && nodes[id].outputs == outputs
      ensures ok && trust.Some? ==> nodes[id].trust == trust && TrustMatchesRun(nodes[id])
      ensures id in old(nodes) && OtherRun(old(nodes)[id], trust, binding) ==> !ok && nodes == old(nodes)
      ensures ok && state == Verified ==> nodes[id].state == Done
    {
      hide Gated, Regated, Persists, SameButStates, TrustMatchesRun, Verdict, Framed, Closed;
      FramedElsewhere(nodes, id);
      if id !in nodes {
        PersistsSame(nodes, {});
        return false;
      }
      ghost var was := nodes;
      PersistsSame(was, {});
      if OtherRun(nodes[id], trust, binding) { return false; }
      var n := Verdict(nodes[id], state, outputs, trust, binding);
      VerdictMeans(nodes[id], state, outputs, trust, binding);
      PersistsSet(was, n);
      FramedSet(was, n);
      Set(n);
      ghost var added := nodes;
      if state == Verified { DoneStays(added, id); }
      ok := RefreshGates();
      PersistsOn(was, added, nodes, {});
      FramedOn(was, added, nodes, {id});
      OnlyState(added, nodes, id);
    }

    /** Outside the gates: the children are cancelled and the parent is made ready whatever it waits for. */
    method Collapse(parentId: Id) returns (ok: bool)
      requires Valid()
      modifies this
      ensures Valid() && Persists(old(nodes), nodes, {}) && nodes.Keys == old(nodes).Keys
      ensures ok <==> parentId in old(nodes)
      ensures ok ==> nodes[parentId].state == Ready && nodes[parentId].soloNative
      ensures ok ==> forall id :: id in nodes && id != parentId ==>
        nodes[id] == if old(nodes)[id].parentId == Some(parentId) then old(nodes)[id].(state := CancelledNode)
            else old(nodes)[id]
      ensures ok && Gated(old(nodes)) ==> (Gated(nodes) <==> Free(old(nodes), old(nodes)[parentId]))
    {
      hide Free;
      if parentId !in nodes { return false; }
      ghost var was := nodes;
      var parent := nodes[parentId];
      nodes := map id | id in nodes :: if nodes[id].parentId == Some(parentId) then nodes[id].(state := CancelledNode)
          else nodes[id];
      nodes := nodes[parentId := nodes[parentId].(state := Ready, soloNative := true)];
      CollapseGates(was, nodes, parentId);
      return true;
    }
  }

  /** The trust evidence does not come from the run this node is bound to. */
  predicate OtherRun(n: Node, trust: Option<Trust>, binding: Option<TrustBinding>) {
    trust.Some? && n.execution.Some? && (binding.None? || binding.value.runId != n.execution.value.runId)
  }

  predicate TrustMatchesRun(n: Node) {
    n.execution.Some? ==> n.trustBinding.Some? && n.trustBinding.value.runId == n.execution.value.runId
  }

  function Verdict(n: Node, state: Verification, outputs: seq<string>, trust: Option<Trust>,
      binding: Option<TrustBinding>): Node {
    n.(verification := state, outputs := outputs,
       trust := if trust.Some? then trust else n.trust,
       trustBinding := if binding.Some? then binding else n.trustBinding,
       state := match state case Verified => Done case Cancelled => CancelledNode case _ => n.state)
  }

  lemma VerdictMeans(n: Node, state: Verification, outputs: seq<string>, trust: Option<Trust>,
      binding: Option<TrustBinding>)
    ensures var v := Verdict(n, state, outputs, trust, binding);
            && v.id == n.id && v.execution == n.execution && v.verification == state && v.outputs == outputs
            && (trust.Some? ==> v.trust == trust) && (state == Verified ==> v.state == Done)
            && (n.execution.None? || (binding.Some? && binding.value.runId == n.execution.value.runId) ==>
               TrustMatchesRun(v))
  {
  }

  lemma PersistsSet(was: Nodes, n: Node)
    requires n.id in was && was[n.id].id == n.id && was[n.id].execution == n.execution
    ensures Persists(was, was[n.id := n], {})
  {
  }

  lemma OnlyState(a: Nodes, b: Nodes, id: Id)
    requires SameButStates(a, b) && id in a
    ensures a.Keys == b.Keys && b[id] == a[id].(state := b[id].state)
    ensures TrustMatchesRun(b[id]) == TrustMatchesRun(a[id])
  {
  }

  function Ids(nodes: seq<Node>): set<Id> { set n | n in nodes :: n.id }

  lemma IdsNext(nodes: seq<Node>, i: nat)
    requires i < |nodes|
    ensures Ids(nodes[..i + 1]) == Ids(nodes[..i]) + {nodes[i].id}
  {
    assert nodes[..i + 1] == nodes[..i] + [nodes[i]];
  }

  /** The merged node: its inputs, and the outputs of its sources, each once. */
  function Merged(nodes: Nodes, sourceIds: seq<Id>, merged: Node): Node
    requires forall id :: id in sourceIds ==> id in nodes
  {
    merged.(inputs := Distinct(merged.inputs + AllOutputs(nodes, sourceIds)))
  }

  /** Exactly the items of the list, each once. */
  lemma {:induction false} DistinctKeepsAll(items: seq<string>)
    ensures forall x :: x in Distinct(items) <==> x in items
    ensures forall i, j :: 0 <= i < j < |Distinct(items)| ==> Distinct(items)[i] != Distinct(items)[j]
  {
    if items != [] {
      DistinctKeepsAll(items[..|items| - 1]);
      assert items == items[..|items| - 1] + [items[|items| - 1]];
    }
  }

  /** First occurrences only. */
  function Distinct(items: seq<string>): seq<string> {
    if items == [] then []
    else
      var init := Distinct(items[..|items| - 1]);
      if items[|items| - 1] in init then init else init + [items[|items| - 1]]
  }

  lemma MergedState(nodes: Nodes, sourceIds: seq<Id>, merged: Node, n: Node)
    requires forall id :: id in sourceIds ==> id in nodes
    requires n == Merged(nodes, sourceIds, merged)
    ensures n.id == merged.id && n.state == merged.state
  {
  }

  function AllOutputs(nodes: Nodes, ids: seq<Id>): seq<string>
    requires forall id :: id in ids ==> id in nodes
  {
    if ids == [] then [] else nodes[ids[0]].outputs + AllOutputs(nodes, ids[1..])
  }

  lemma DoneStays(nodes: Nodes, id: Id)
    requires id in nodes && nodes[id].state == Done
    ensures Regated(nodes)[id] == nodes[id]
  {
  }

  /** Only states and the mode differ: the dependencies of every node are as free as before. */
  lemma CollapseGates(was: Nodes, now: Nodes, parentId: Id)
    requires parentId in was && was.Keys == now.Keys
    requires now[parentId] == was[parentId].(state := Ready, soloNative := true)
    requires forall id :: id in was && id != parentId ==>
      now[id] == if was[id].parentId == Some(parentId) then was[id].(state := CancelledNode) else was[id]
    ensures Gated(was) ==> (Gated(now) <==> Free(was, was[parentId]))
  {
    assert forall id :: id in was ==> Passes(now[id]) == Passes(was[id]);
    forall id | id in was ensures Free(now, now[id]) == Free(was, was[id]) {
      assert now[id].dependencyIds == was[id].dependencyIds;
    }
  }

  /** What one more node of the pass amounts to. */
  lemma GateOne(was: Nodes, past: seq<Id>, id: Id)
    requires id in was
    ensures var now := RegatedOver(was, past);
            && SameButStates(was, RegatedOver(was, past + [id])) && id in now
            && Free(now, now[id]) == Free(was, was[id]) && Dangles(now, now[id]) == Dangles(was, was[id])
            && Gateable(now[id]) == Gateable(was[id])
            && RegatedOver(was, past + [id]) ==
               if Gateable(now[id]) then now[id := now[id].(state := if Free(was, was[id]) then Ready else Blocked)]
                   else now
  {
    hide Free, Dangles, Gate, SameButStates, RegatedOver;
    var now := RegatedOver(was, past);
    RegatedNext(was, past, id);
    RegatedNext(was, past + [id], id);
    StatesDoNotCount(was, now, now[id]);
    SameDependencies(was, now[id], was[id]);
  }

  lemma SameKeys(a: Nodes, b: Nodes)
    requires SameButStates(a, b)
    ensures a.Keys == b.Keys && forall id :: id in a ==> b[id].id == a[id].id
  {
  }
}
