/** The recursive closure over the variables of `Search`, and the cycle metrics read off its result. */
module ImportCycles {
  import opened ImportGraph
  import opened SccInvariant

  /** A relation of the repository snapshot; only imports count here. */
  datatype Relation = Imports(from: File, to: File) | OtherRelation(from: File, to: File)

  function ImportEdges(relations: seq<Relation>): seq<Import> {
    if relations == [] then []
    else if relations[0].Imports? then [Import(relations[0].from, relations[0].to)] + ImportEdges(relations[1..])
    else ImportEdges(relations[1..])
  }

  /** What `u` imports, in edge order and with repetitions. */
  function Targets(edges: seq<Import>, u: File): (targets: seq<File>)
    ensures forall v :: v in targets <==> Import(u, v) in edges
  {
    if edges == [] then []
    else
      var before := Targets(edges[..|edges| - 1], u);
      var last := edges[|edges| - 1];
      assert edges == edges[..|edges| - 1] + [last];
      if last.from == u then before + [last.to] else before
  }

  function Get(adjacency: map<File, seq<File>>, u: File): seq<File> {
    if u in adjacency then adjacency[u] else []
  }

  ghost predicate Represents(edges: seq<Import>, adjacency: map<File, seq<File>>, keys: seq<File>) {
    && (forall u :: u in adjacency <==> u in keys)
    && (forall u :: Get(adjacency, u) == Targets(edges, u))
    && (forall u :: u in adjacency ==> adjacency[u] != [])
  }

  lemma SuccessorsOf(edges: seq<Import>, adjacency: map<File, seq<File>>, keys: seq<File>, node: File)
    requires Represents(edges, adjacency, keys)
    ensures forall v :: v in Get(adjacency, node) <==> Import(node, v) in edges
    ensures forall v :: v in Get(adjacency, node) ==> v in Endpoints(edges)
  {
    forall v | v in Get(adjacency, node)
      ensures v in Endpoints(edges)
    {
      assert Get(adjacency, node) == Targets(edges, node);
      assert Import(node, v) in edges && Import(node, v).to == v;
    }
  }

  class SccSearch {
    // `keys` is the insertion order in which the adjacency map is walked.
    var adjacency: map<File, seq<File>>
    var keys: seq<File>
    var index: nat
    var indices: map<File, nat>
    var lowlinks: map<File, nat>
    var onStack: set<File>
    var stack: seq<File>
    var components: seq<seq<File>>

    ghost function View(): Search
      reads this
    {
      Search(index, indices, lowlinks, onStack, stack, components)
    }

    constructor (edges: seq<Import>)
      ensures Represents(edges, adjacency, keys)
      ensures View() == Search(0, map[], map[], {}, [], [])
    {
      adjacency, keys := map[], [];
      index, indices, lowlinks, onStack, stack, components := 0, map[], map[], {}, [], [];
      new;
      for i := 0 to |edges|
        modifies this`adjacency, this`keys
        invariant Represents(edges[..i], adjacency, keys)
      {
        var edge := edges[i];
        assert edges[..i + 1][..i] == edges[..i];
        var list := Get(adjacency, edge.from);
        if edge.from !in adjacency {
          keys := keys + [edge.from];
        }
        adjacency := adjacency[edge.from := list + [edge.to]];
      }
      assert edges[..|edges|] == edges;
    }

    /** Pops the stack down to and including `node` into a component. */
    method PopComponent(node: File, ghost base: nat)
      requires base < |stack| && stack[base] == node
      requires forall i :: base < i < |stack| ==> stack[i] != node
      modifies this`stack, this`onStack, this`components
      ensures View() == Emit(old(View()), base)
    {
      var component: seq<File> := [];
      var popped := "";
      ghost var before := stack;
      var more := true;
      while more
        invariant if more then base < |stack| <= |before| else |stack| == base
        invariant components == old(components) && stack == before[..|stack|]
        invariant onStack == old(onStack) - (set v | v in before[|stack|..])
        invariant component == Reversed(before[|stack|..])
        invariant more <==> |stack| > base
        decreases |stack|
      {
        popped := stack[|stack| - 1];
        stack := stack[..|stack| - 1];
        onStack := onStack - {popped};
        component := component + [popped];
        assert before[|stack|..] == [popped] + before[|stack| + 1..];
        more := popped != node;
      }
      components := components + [component];
      assert stack == before[..base];
    }

    method StrongConnect(node: File, ghost edges: seq<Import>, ghost gray: set<File>)
      requires Represents(edges, adjacency, keys)
      requires Inv(edges, View(), gray) && node !in indices
      requires forall g :: g in gray ==> Reaches(edges, g, node)
      requires node in Endpoints(edges) && indices.Keys <= Endpoints(edges)
      modifies this`index, this`indices, this`lowlinks, this`onStack, this`stack, this`components
      ensures Inv(edges, View(), gray) && Explored(edges, old(View()), View(), node)
      ensures indices.Keys <= Endpoints(edges)
      decreases Endpoints(edges) - indices.Keys
    {
      hide Inv, Explored, Scanning, Scanned, Reaches, Represents, Targets, Endpoints, Emit;
      SuccessorsOf(edges, adjacency, keys, node);
      ghost var s0 := View();
      PushStartsScan(edges, s0, gray, node);
      indices := indices[node := index];
      lowlinks := lowlinks[node := index];
      index := index + 1;
      stack := stack + [node];
      onStack := onStack + {node};
      assert View() == Push(s0, node);
      var successors := Get(adjacency, node);
      for k := 0 to |successors|
        invariant Scanning(edges, s0, View(), gray, node, successors[..k])
        invariant s0.indices.Keys + {node} <= indices.Keys <= Endpoints(edges)
      {
        var next := successors[k];
        assert next in successors && Import(node, next) in edges;
        ghost var s := View();
        ScanFacts(edges, s0, s, gray, node, successors[..k]);
        assert successors[..k + 1] == successors[..k] + [next];
        if next !in indices {
          GrayReaches(edges, gray, node, next);
          StrongConnect(next, edges, gray + {node});
          ghost var t := View();
          ExploredFacts(edges, s, t, gray + {node}, next);
          lowlinks := lowlinks[node := if lowlinks[next] < lowlinks[node] then lowlinks[next] else lowlinks[node]];
          assert View() == Lower(t, node, t.lowlinks[next]);
          ScanChild(edges, s0, s, t, gray, node, successors[..k], next);
        } else if next in onStack {
          lowlinks := lowlinks[node := if indices[next] < lowlinks[node] then indices[next] else lowlinks[node]];
          assert View() == Lower(s, node, s.indices[next]);
          ScanBackEdge(edges, s0, s, gray, node, successors[..k], next);
        } else {
          ScanSettled(edges, s0, s, gray, node, successors[..k], next);
        }
      }
      ghost var s := View();
      assert successors[..|successors|] == successors;
      ScanEnds(edges, s0, s, gray, node, successors);
      ScanFacts(edges, s0, s, gray, node, successors);
      if lowlinks[node] == indices[node] {
        Settle(edges, s0, s, gray, node, successors);
        PopComponent(node, |s0.stack|);
      } else {
        Retain(edges, s0, s, gray, node, successors);
      }
    }

    /** The loop over the adjacency keys: afterwards the components are the exact partition. */
    method FindComponents(ghost edges: seq<Import>)
      requires Represents(edges, adjacency, keys)
      requires View() == Search(0, map[], map[], {}, [], [])
      modifies this`index, this`indices, this`lowlinks, this`onStack, this`stack, this`components
      ensures IsSccPartition(edges, components)
    {
      hide Inv, Explored, Reaches, Represents, Targets, Endpoints, IsSccPartition;
      StartInv(edges);
      KeysAreSources(edges, adjacency, keys);
      for k := 0 to |keys|
        invariant Inv(edges, View(), {}) && indices.Keys <= Endpoints(edges)
        invariant forall i :: 0 <= i < k ==> keys[i] in indices
      {
        var node := keys[k];
        if node !in indices {
          ghost var s := View();
          StrongConnect(node, edges, {});
          ExploredFacts(edges, s, View(), {}, node);
        }
      }
      FinalPartition(edges, View());
    }
  }

  /** Each endpoint in exactly one list, each list a full class of mutually reachable files. */
  ghost predicate IsSccPartition(edges: seq<Import>, components: seq<seq<File>>) {
    ComponentsOk(edges, components, Endpoints(edges))
  }

  lemma PartitionMeaning(edges: seq<Import>, components: seq<seq<File>>, u: File, v: File)
    requires IsSccPartition(edges, components) && u in Endpoints(edges) && v in Endpoints(edges)
    ensures exists c :: 0 <= c < |components| && u in components[c] && (v in components[c] <==> Mutual(edges, u, v))
    ensures forall c, d ::
            0 <= c < |components| && 0 <= d < |components| && u in components[c] && u in components[d] ==> c == d
  {
    hide Reaches;
    assert Listed(components, u);
    var c :| 0 <= c < |components| && u in components[c];
    assert IsScc(edges, components[c]);
  }

  lemma StartInv(edges: seq<Import>)
    ensures Inv(edges, Search(0, map[], map[], {}, [], []), {})
  {
  }

  lemma KeysAreSources(edges: seq<Import>, adjacency: map<File, seq<File>>, keys: seq<File>)
    requires Represents(edges, adjacency, keys)
    ensures forall k :: 0 <= k < |keys| ==> keys[k] in Endpoints(edges)
    ensures forall e :: e in edges ==> e.from in keys
  {
    forall k | 0 <= k < |keys|
      ensures keys[k] in Endpoints(edges)
    {
      var u := keys[k];
      assert u in adjacency && Get(adjacency, u)[0] in Targets(edges, u);
      var e := Import(u, Targets(edges, u)[0]);
      assert e in edges && e.from == u;
    }
    forall e | e in edges
      ensures e.from in keys
    {
      assert Import(e.from, e.to) in edges;
      assert e.to in Targets(edges, e.from);
      assert Get(adjacency, e.from) != [];
    }
  }

  lemma FinalPartition(edges: seq<Import>, s: Search)
    requires Inv(edges, s, {}) && s.indices.Keys <= Endpoints(edges)
    requires forall e :: e in edges ==> e.from in s.indices
    ensures IsSccPartition(edges, s.components)
  {
    hide Reaches, ComponentsOk, StackReach, Closed;
    forall y
      ensures y !in s.onStack
    {
      assert y in s.onStack ==> HasAnchor(edges, s, {}, y);
    }
    assert Endpoints(edges) <= s.indices.Keys;
    assert Done(s) == Endpoints(edges);
  }

  // ----- the metrics -----

  function IsCyclic(adjacency: map<File, seq<File>>, component: seq<File>): bool {
    |component| > 1 || (|component| == 1 && component[0] in Get(adjacency, component[0]))
  }

  function Cycles(adjacency: map<File, seq<File>>, components: seq<seq<File>>): seq<seq<File>> {
    if components == [] then []
    else
      var before := Cycles(adjacency, components[..|components| - 1]);
      var last := components[|components| - 1];
      if IsCyclic(adjacency, last) then before + [last] else before
  }

  function LargestLength(cycles: seq<seq<File>>): nat {
    if cycles == [] then 0
    else
      var before := LargestLength(cycles[..|cycles| - 1]);
      var last := |cycles[|cycles| - 1]|;
      if before < last then last else before
  }

  /** The files mutually reachable with `u`. */
  ghost function ClassOf(edges: seq<Import>, u: File): set<File> {
    set v | v in Endpoints(edges) && Mutual(edges, u, v)
  }

  /** The strongly connected components that contain a cycle, as sets of files. */
  ghost function CyclicClasses(edges: seq<Import>): set<set<File>> {
    set u | u in Endpoints(edges) && OnCycle(edges, u) :: ClassOf(edges, u)
  }

  ghost function Files(c: seq<File>): set<File> {
    set v | v in c
  }

  lemma FilesSize(c: seq<File>)
    requires forall i, j :: 0 <= i < j < |c| ==> c[i] != c[j]
    ensures |Files(c)| == |c|
  {
    if c != [] {
      var rest := c[..|c| - 1];
      FilesSize(rest);
      assert Files(c) == Files(rest) + {c[|c| - 1]};
    }
  }

  lemma CyclicMeansCycle(edges: seq<Import>, adjacency: map<File, seq<File>>, keys: seq<File>, c: seq<File>, u: File)
    requires Represents(edges, adjacency, keys) && IsScc(edges, c) && u in c
    ensures IsCyclic(adjacency, c) <==> OnCycle(edges, u)
  {
    hide Reaches, OnCycle;
    CycleThroughImport(edges, u);
    SuccessorsOf(edges, adjacency, keys, c[0]);
    ReachesSelf(edges, u);
    if |c| > 1 {
      var v := if u == c[0] then c[1] else c[0];
      LeavingImport(edges, u, v);
    } else if OnCycle(edges, u) {
      var e :| e in edges && e.from == u && Reaches(edges, e.to, u);
      ReachesStep(edges, e);
      assert Mutual(edges, u, e.to) && e.to in c;
      assert e == Import(u, u);
    }
  }

  /** A file that reaches another and is reached back has an import that leads back to it. */
  lemma LeavingImport(edges: seq<Import>, u: File, v: File)
    requires u != v && Mutual(edges, u, v)
    ensures exists e :: e in edges && e.from == u && Reaches(edges, e.to, u)
  {
    var p :| IsPath(edges, p) && p[0] == u && p[|p| - 1] == v;
    var e := Import(p[0], p[1]);
    var q := p[1..];
    forall i | 0 <= i < |q| - 1
      ensures Import(q[i], q[i + 1]) in edges
    {
      assert q[i] == p[i + 1] && q[i + 1] == p[i + 2];
    }
    assert IsPath(edges, q) && q[0] == e.to && q[|q| - 1] == v;
    ReachesTrans(edges, e.to, v, u);
  }

  ghost function CyclicFileSets(adjacency: map<File, seq<File>>, components: seq<seq<File>>): set<set<File>> {
    set i | 0 <= i < |components| && IsCyclic(adjacency, components[i]) :: Files(components[i])
  }

  ghost predicate Disjoint(components: seq<seq<File>>) {
    && (forall c :: 0 <= c < |components| ==> |components[c]| > 0 && |Files(components[c])| == |components[c]|)
    && (forall c, d, v :: 0 <= c < d < |components| && v in components[c] ==> v !in components[d])
  }

  lemma CyclicFileSetsStep(adjacency: map<File, seq<File>>, components: seq<seq<File>>)
    requires components != []
    ensures var n := |components| - 1;
      var before := CyclicFileSets(adjacency, components[..n]);
      CyclicFileSets(adjacency, components) ==
        if IsCyclic(adjacency, components[n]) then before + {Files(components[n])} else before
  {
    hide IsCyclic, Files;
    var n := |components| - 1;
    var before := components[..n];
    forall c | c in CyclicFileSets(adjacency, components) &&
        !(IsCyclic(adjacency, components[n]) && c == Files(components[n]))
      ensures c in CyclicFileSets(adjacency, before)
    {
      var i :| 0 <= i < |components| && IsCyclic(adjacency, components[i]) && c == Files(components[i]);
      assert before[i] == components[i];
    }
    forall c | c in CyclicFileSets(adjacency, before)
      ensures c in CyclicFileSets(adjacency, components)
    {
      var i :| 0 <= i < |before| && IsCyclic(adjacency, before[i]) && c == Files(before[i]);
      assert components[i] == before[i];
    }
  }

  lemma NewClass(adjacency: map<File, seq<File>>, components: seq<seq<File>>, n: nat)
    requires Disjoint(components) && n < |components|
    ensures Files(components[n]) !in CyclicFileSets(adjacency, components[..n])
  {
    hide IsCyclic;
    var last := components[n];
    assert last[0] in Files(last);
  }

  lemma {:induction false} CyclesCounted(adjacency: map<File, seq<File>>, components: seq<seq<File>>)
    requires Disjoint(components)
    ensures |Cycles(adjacency, components)| == |CyclicFileSets(adjacency, components)|
    ensures forall c :: c in CyclicFileSets(adjacency, components) ==>
            |c| <= LargestLength(Cycles(adjacency, components))
    ensures Cycles(adjacency, components) == [] ==> LargestLength(Cycles(adjacency, components)) == 0
    ensures Cycles(adjacency, components) != [] ==>
      exists c :: c in CyclicFileSets(adjacency, components) && |c| == LargestLength(Cycles(adjacency, components))
  {
    hide IsCyclic, CyclicFileSets, Files;
    if components == [] {
      NoCyclicFileSets(adjacency);
    } else {
      var n := |components| - 1;
      CyclesCounted(adjacency, components[..n]);
      CyclicFileSetsStep(adjacency, components);
      NewClass(adjacency, components, n);
      var cycles := Cycles(adjacency, components);
      assert IsCyclic(adjacency, components[n]) ==> cycles[..|cycles| - 1] == Cycles(adjacency, components[..n]);
    }
  }

  lemma NoCyclicFileSets(adjacency: map<File, seq<File>>)
    ensures CyclicFileSets(adjacency, []) == {}
  {
  }

  lemma PartitionIsDisjoint(edges: seq<Import>, components: seq<seq<File>>)
    requires IsSccPartition(edges, components)
    ensures Disjoint(components)
  {
    hide Reaches;
    forall c | 0 <= c < |components|
      ensures |components[c]| > 0 && |Files(components[c])| == |components[c]|
    {
      assert IsScc(edges, components[c]);
      FilesSize(components[c]);
    }
  }

  lemma FilesAreClass(edges: seq<Import>, components: seq<seq<File>>, i: nat, u: File)
    requires IsSccPartition(edges, components) && i < |components| && u in components[i]
    ensures Files(components[i]) == ClassOf(edges, u) && u in Endpoints(edges)
  {
    hide Reaches;
    assert IsScc(edges, components[i]);
  }

  lemma CyclicSetsAreClasses(edges: seq<Import>, adjacency: map<File, seq<File>>, keys: seq<File>,
      components: seq<seq<File>>)
    requires Represents(edges, adjacency, keys) && IsSccPartition(edges, components)
    ensures CyclicFileSets(adjacency, components) == CyclicClasses(edges)
  {
    hide Reaches, OnCycle, Represents, Endpoints, IsCyclic, ClassOf, Files;
    forall c | c in CyclicFileSets(adjacency, components)
      ensures c in CyclicClasses(edges)
    {
      var i :| 0 <= i < |components| && IsCyclic(adjacency, components[i]) && c == Files(components[i]);
      var u := components[i][0];
      FilesAreClass(edges, components, i, u);
      CyclicMeansCycle(edges, adjacency, keys, components[i], u);
    }
    forall c | c in CyclicClasses(edges)
      ensures c in CyclicFileSets(adjacency, components)
    {
      var u :| u in Endpoints(edges) && OnCycle(edges, u) && c == ClassOf(edges, u);
      assert Listed(components, u);
      var i :| 0 <= i < |components| && u in components[i];
      FilesAreClass(edges, components, i, u);
      CyclicMeansCycle(edges, adjacency, keys, components[i], u);
    }
  }

  // ----- the metrics, on the relations themselves -----

  /** A walk along import relations. */
  ghost predicate IsWalk(relations: seq<Relation>, p: seq<File>) {
    && |p| > 0
    && (forall i :: 0 <= i < |p| - 1 ==> Imports(p[i], p[i + 1]) in relations)
  }

  ghost predicate LeadsTo(relations: seq<Relation>, u: File, v: File) {
    exists p :: IsWalk(relations, p) && p[0] == u && p[|p| - 1] == v
  }

  /** The file imports its way back to itself. */
  ghost predicate ImportsItself(relations: seq<Relation>, u: File) {
    exists p :: IsWalk(relations, p) && |p| >= 2 && p[0] == u && p[|p| - 1] == u
  }

  ghost function Importing(relations: seq<Relation>): set<File> {
    (set r | r in relations && r.Imports? :: r.from) + (set r | r in relations && r.Imports? :: r.to)
  }

  /** The files that import their way to `u` and back. */
  ghost function Circle(relations: seq<Relation>, u: File): set<File> {
    set v | v in Importing(relations) && LeadsTo(relations, u, v) && LeadsTo(relations, v, u)
  }

  ghost function Circles(relations: seq<Relation>): set<set<File>> {
    set u | u in Importing(relations) && ImportsItself(relations, u) :: Circle(relations, u)
  }

  /** `count` groups of files that import one another in a circle, the largest of `largest` files. */
  ghost predicate Measures(relations: seq<Relation>, count: nat, largest: nat) {
    && count == |Circles(relations)|
    && (forall c :: c in Circles(relations) ==> |c| <= largest)
    && (count == 0 ==> largest == 0)
    && (count > 0 ==> exists c :: c in Circles(relations) && |c| == largest)
  }

  /** The edges searched are exactly the relations of kind import. */
  lemma {:induction false} EdgesAreImports(relations: seq<Relation>, u: File, v: File)
    ensures Import(u, v) in ImportEdges(relations) <==> Imports(u, v) in relations
  {
    if relations != [] {
      EdgesAreImports(relations[1..], u, v);
      assert relations == [relations[0]] + relations[1..];
    }
  }

  ghost predicate Lists(relations: seq<Relation>, edges: seq<Import>) {
    forall u, v :: Import(u, v) in edges <==> Imports(u, v) in relations
  }

  lemma WalksArePaths(relations: seq<Relation>, edges: seq<Import>)
    requires Lists(relations, edges)
    ensures forall p :: IsWalk(relations, p) <==> IsPath(edges, p)
    ensures forall u, v :: LeadsTo(relations, u, v) <==> Reaches(edges, u, v)
    ensures forall u :: ImportsItself(relations, u) <==> OnCycle(edges, u)
  {
    assert forall p :: IsWalk(relations, p) <==> IsPath(edges, p);
    hide IsWalk, IsPath, Lists;
  }

  lemma ImportingAreEndpoints(relations: seq<Relation>, edges: seq<Import>)
    requires Lists(relations, edges)
    ensures Importing(relations) == Endpoints(edges)
  {
    forall u | u in Importing(relations)
      ensures u in Endpoints(edges)
    {
      var r :| r in relations && r.Imports? && (r.from == u || r.to == u);
      assert Imports(r.from, r.to) in relations && Import(r.from, r.to) in edges;
    }
    forall u | u in Endpoints(edges)
      ensures u in Importing(relations)
    {
      var e :| e in edges && (e.from == u || e.to == u);
      assert Import(e.from, e.to) in edges && Imports(e.from, e.to) in relations;
    }
  }

  lemma CirclesAreClasses(relations: seq<Relation>, edges: seq<Import>)
    requires Lists(relations, edges)
    ensures Circles(relations) == CyclicClasses(edges)
  {
    WalksArePaths(relations, edges);
    ImportingAreEndpoints(relations, edges);
    hide Lists, LeadsTo, ImportsItself, Reaches, OnCycle, Importing, Endpoints;
    forall u
      ensures Circle(relations, u) == ClassOf(edges, u)
    {
    }
    hide Circle, ClassOf;
  }

  /** The cycle count is zero exactly when no file imports its way back to itself. */
  lemma NoCyclesIffAcyclic(relations: seq<Relation>, count: nat, largest: nat)
    requires Measures(relations, count, largest)
    ensures count == 0 <==> forall u :: !ImportsItself(relations, u)
  {
    forall u | ImportsItself(relations, u)
      ensures Circle(relations, u) in Circles(relations)
    {
      var p :| IsWalk(relations, p) && |p| >= 2 && p[0] == u && p[|p| - 1] == u;
      assert Imports(p[0], p[1]) in relations;
    }
    if count > 0 {
      var c :| c in Circles(relations);
    }
  }

  method DeriveCycleMetrics(relations: seq<Relation>) returns (importCycleCount: nat, largestCycleFiles: nat)
    ensures Measures(relations, importCycleCount, largestCycleFiles)
  {
    var importEdges := ImportEdges(relations);
    var search := new SccSearch(importEdges);
    search.FindComponents(importEdges);
    var cycles := Cycles(search.adjacency, search.components);
    importCycleCount := |cycles|;
    largestCycleFiles := LargestLength(cycles);
    PartitionIsDisjoint(importEdges, search.components);
    CyclesCounted(search.adjacency, search.components);
    CyclicSetsAreClasses(importEdges, search.adjacency, search.keys, search.components);
    forall u, v
      ensures Import(u, v) in importEdges <==> Imports(u, v) in relations
    {
      EdgesAreImports(relations, u, v);
    }
    CirclesAreClasses(relations, importEdges);
  }
}
