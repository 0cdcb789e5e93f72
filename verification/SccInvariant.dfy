/**
 * Tarjan's strongly-connected-components search as the structural health metrics run it.
 *
 * `Search` is the value of the variables the recursive closure shares, `Inv` what holds of them
 * whenever control is between two steps, and the lemmas say what each step of the closure does to
 * it. `ImportCycles.SccSearch` is the closure itself.
 */
module SccInvariant {
  import opened ImportGraph

  datatype Search = Search(
    index: nat,
    indices: map<File, nat>,
    lowlinks: map<File, nat>,
    onStack: set<File>,
    stack: seq<File>,
    components: seq<seq<File>>)

  /** Files whose component has been emitted. */
  ghost function Done(s: Search): set<File> {
    s.indices.Keys - s.onStack
  }

  ghost predicate StackOk(s: Search) {
    && s.onStack <= s.indices.Keys
    && s.lowlinks.Keys == s.indices.Keys
    && (forall v :: v in s.onStack <==> v in s.stack)
    && (forall i, j :: 0 <= i < j < |s.stack| ==> s.indices[s.stack[i]] < s.indices[s.stack[j]])
    && (forall v :: v in s.indices ==> s.indices[v] < s.index)
  }

  /** A duplicate-free list of exactly the files mutually reachable with each of its members. */
  ghost predicate IsScc(edges: seq<Import>, c: seq<File>) {
    && |c| > 0
    && (forall i, j :: 0 <= i < j < |c| ==> c[i] != c[j])
    && (forall u, v :: u in c ==> (v in c <==> Mutual(edges, u, v)))
  }

  ghost predicate Listed(components: seq<seq<File>>, v: File) {
    exists c :: 0 <= c < |components| && v in components[c]
  }

  ghost predicate ComponentsOk(edges: seq<Import>, components: seq<seq<File>>, done: set<File>) {
    && (forall c :: 0 <= c < |components| ==> IsScc(edges, components[c]))
    && (forall c, v :: 0 <= c < |components| && v in components[c] ==> v in done)
    && (forall v {:trigger Listed(components, v)} :: v in done ==> Listed(components, v))
    && (forall c, d, v :: 0 <= c < d < |components| && v in components[c] ==> v !in components[d])
  }

  /** Everything a finished call has touched was scanned: its imports all lead to visited files. */
  ghost predicate BlackVisited(edges: seq<Import>, s: Search, gray: set<File>) {
    forall e :: e in edges && e.from in s.indices && e.from !in gray ==> e.to in s.indices
  }

  ghost predicate StackReach(edges: seq<Import>, s: Search) {
    forall i, j :: 0 <= i <= j < |s.stack| ==> Reaches(edges, s.stack[i], s.stack[j])
  }

  ghost predicate AnchoredAt(edges: seq<Import>, s: Search, y: File, x: File) {
    x in s.indices && y in s.indices && s.indices[x] <= s.indices[y] && Reaches(edges, y, x)
  }

  ghost predicate HasAnchor(edges: seq<Import>, s: Search, gray: set<File>, y: File) {
    exists x :: x in gray && AnchoredAt(edges, s, y, x)
  }

  /** Every file on the stack reaches a file whose call is still open and not younger than it. */
  ghost predicate Anchored(edges: seq<Import>, s: Search, gray: set<File>) {
    && gray <= s.onStack
    && forall y {:trigger HasAnchor(edges, s, gray, y)} :: y in s.onStack ==> HasAnchor(edges, s, gray, y)
  }

  /** `gray` holds the files whose `strongConnect` call has not returned. */
  ghost predicate Inv(edges: seq<Import>, s: Search, gray: set<File>) {
    && StackOk(s)
    && ComponentsOk(edges, s.components, Done(s))
    && Closed(edges, Done(s))
    && BlackVisited(edges, s, gray)
    && StackReach(edges, s)
    && Anchored(edges, s, gray)
  }

  ghost predicate Keeps(s0: Search, s1: Search) {
    && s0.indices.Keys <= s1.indices.Keys
    && (forall v :: v in s0.indices ==> s1.indices[v] == s0.indices[v])
    && s0.lowlinks.Keys <= s1.lowlinks.Keys
    && (forall v :: v in s0.lowlinks ==> s1.lowlinks[v] == s0.lowlinks[v])
  }

  /** `low` bounds the index of every older stack file that `from` imports. */
  ghost predicate Bounds(edges: seq<Import>, s0: Search, low: nat, from: File) {
    forall e :: e in edges && e.from == from && e.to in s0.onStack && e.to in s0.indices ==> low <= s0.indices[e.to]
  }

  /** `low` is the index of a file of `within` that `node` reaches. */
  ghost predicate Witnessed(edges: seq<Import>, s: Search, within: set<File>, low: nat, node: File) {
    exists y :: y in within && y in s.indices && s.indices[y] == low && Reaches(edges, node, y)
  }

  /** What a returned `strongConnect(node)` has done to `s0`. */
  ghost predicate Explored(edges: seq<Import>, s0: Search, s1: Search, node: File) {
    && Keeps(s0, s1)
    && s0.stack <= s1.stack
    && node in s1.indices && s1.indices[node] == s0.index
    && node in s1.lowlinks && s1.lowlinks[node] <= s0.index
    && (node in s1.onStack ==> Witnessed(edges, s0, s0.onStack, s1.lowlinks[node], node))
    && (node !in s1.onStack ==> s1.lowlinks[node] == s0.index)
    && (forall k :: |s0.stack| <= k < |s1.stack| ==> Bounds(edges, s0, s1.lowlinks[node], s1.stack[k]))
  }

  /** State inside `strongConnect(node)`, entered at `s0`, once the imports `seen` are handled. */
  ghost predicate Scanning(edges: seq<Import>, s0: Search, s: Search, gray: set<File>, node: File, seen: seq<File>) {
    && Inv(edges, s, gray + {node})
    && Keeps(s0, s)
    && |s0.stack| < |s.stack| && s.stack[..|s0.stack|] == s0.stack && s.stack[|s0.stack|] == node
    && node in s.indices && s.indices[node] == s0.index
    && s.lowlinks[node] <= s0.index
    && Witnessed(edges, s, s.onStack, s.lowlinks[node], node)
    && (forall v :: v in seen ==> v in s.indices)
    && (forall v :: v in seen && v in s0.onStack && v in s0.indices ==> s.lowlinks[node] <= s0.indices[v])
    && (forall k :: |s0.stack| < k < |s.stack| ==> Bounds(edges, s0, s.lowlinks[node], s.stack[k]))
  }

  /** What the open call of the innermost node has put on the stack. */
  ghost function Segment(s0: Search, s: Search): set<File>
    requires |s0.stack| <= |s.stack|
  {
    set v | v in s.stack[|s0.stack|..]
  }

  lemma StackSplits(s0: Search, s: Search)
    requires StackOk(s0) && StackOk(s) && s0.stack <= s.stack
    ensures s.onStack == s0.onStack + Segment(s0, s)
    ensures s0.onStack !! Segment(s0, s)
  {
    assert s.stack == s0.stack + s.stack[|s0.stack|..];
  }

  /** What the closure reads while it scans `node` is there: no lookup falls back on a default. */
  lemma {:induction false} ScanFacts(edges: seq<Import>, s0: Search, s: Search, gray: set<File>, node: File,
      seen: seq<File>)
    requires Scanning(edges, s0, s, gray, node, seen)
    ensures s.lowlinks.Keys == s.indices.Keys && s.onStack <= s.indices.Keys
    ensures s0.indices.Keys <= s.indices.Keys && node in s.indices
    ensures |s0.stack| < |s.stack| && s.stack[|s0.stack|] == node
    ensures forall i :: |s0.stack| < i < |s.stack| ==> s.stack[i] != node
    ensures Inv(edges, s, gray + {node})
  {
    hide Reaches, ComponentsOk, Closed, BlackVisited, StackReach, Anchored, Bounds;
    assert forall i :: |s0.stack| < i < |s.stack| ==> s.indices[s.stack[|s0.stack|]] < s.indices[s.stack[i]];
  }

  lemma GrayReaches(edges: seq<Import>, gray: set<File>, node: File, next: File)
    requires Import(node, next) in edges
    requires forall g :: g in gray ==> Reaches(edges, g, node)
    ensures forall g :: g in gray + {node} ==> Reaches(edges, g, next)
  {
    hide Reaches;
    ReachesStep(edges, Import(node, next));
    forall g | g in gray
      ensures Reaches(edges, g, next)
    {
      ReachesTrans(edges, g, node, next);
    }
  }

  lemma InvSplits(edges: seq<Import>, s0: Search, gray0: set<File>, s: Search, gray: set<File>)
    requires Inv(edges, s0, gray0) && Inv(edges, s, gray) && s0.stack <= s.stack
    ensures s.onStack == s0.onStack + Segment(s0, s) && s0.onStack !! Segment(s0, s)
    ensures gray0 <= s0.onStack <= s0.indices.Keys && gray <= s.onStack <= s.indices.Keys
    ensures s0.lowlinks.Keys == s0.indices.Keys && s.lowlinks.Keys == s.indices.Keys
    ensures forall v :: v in s0.indices ==> s0.indices[v] < s0.index
  {
    hide Reaches, ComponentsOk, Closed, BlackVisited, StackReach;
    StackSplits(s0, s);
  }

  function Push(s: Search, node: File): Search {
    Search(s.index + 1, s.indices[node := s.index], s.lowlinks[node := s.index],
           s.onStack + {node}, s.stack + [node], s.components)
  }

  lemma PushAnchors(edges: seq<Import>, s: Search, gray: set<File>, node: File)
    requires StackOk(s) && Anchored(edges, s, gray) && node !in s.indices
    ensures Anchored(edges, Push(s, node), gray + {node})
  {
    var t := Push(s, node);
    ReachesSelf(edges, node);
    hide Reaches;
    forall y | y in t.onStack
      ensures HasAnchor(edges, t, gray + {node}, y)
    {
      if y == node {
        assert AnchoredAt(edges, t, node, node);
      } else {
        assert HasAnchor(edges, s, gray, y);
        var x :| x in gray && AnchoredAt(edges, s, y, x);
        assert AnchoredAt(edges, t, y, x);
      }
    }
  }

  lemma PushReach(edges: seq<Import>, s: Search, gray: set<File>, node: File)
    requires StackOk(s) && Anchored(edges, s, gray) && StackReach(edges, s)
    requires forall g :: g in gray ==> Reaches(edges, g, node)
    ensures StackReach(edges, Push(s, node))
  {
    var t := Push(s, node);
    ReachesSelf(edges, node);
    hide Reaches;
    forall i, j | 0 <= i <= j < |t.stack|
      ensures Reaches(edges, t.stack[i], t.stack[j])
    {
      if j == |s.stack| && i < j {
        var y := s.stack[i];
        assert HasAnchor(edges, s, gray, y);
        var x :| x in gray && AnchoredAt(edges, s, y, x);
        ReachesTrans(edges, y, x, node);
      } else if j < |s.stack| {
        assert Reaches(edges, s.stack[i], s.stack[j]);
      }
    }
  }

  lemma PushStartsScan(edges: seq<Import>, s: Search, gray: set<File>, node: File)
    requires Inv(edges, s, gray) && node !in s.indices
    requires forall g :: g in gray ==> Reaches(edges, g, node)
    ensures Scanning(edges, s, Push(s, node), gray, node, [])
  {
    var t := Push(s, node);
    PushAnchors(edges, s, gray, node);
    PushReach(edges, s, gray, node);
    ReachesSelf(edges, node);
    hide Reaches, StackReach, Anchored, IsScc;
    assert Done(t) == Done(s);
    assert BlackVisited(edges, t, gray + {node});
    assert Inv(edges, t, gray + {node});
    assert Witnessed(edges, t, t.onStack, t.lowlinks[node], node);
  }

  function Lower(s: Search, node: File, low: nat): Search
    requires node in s.lowlinks
  {
    s.(lowlinks := s.lowlinks[node := if low < s.lowlinks[node] then low else s.lowlinks[node]])
  }

  lemma LowerKeepsInv(edges: seq<Import>, s: Search, gray: set<File>, node: File, low: nat)
    requires Inv(edges, s, gray) && node in s.lowlinks
    ensures Inv(edges, Lower(s, node, low), gray)
  {
    hide Reaches, IsScc;
    var t := Lower(s, node, low);
    assert Done(t) == Done(s);
    forall y | y in t.onStack
      ensures HasAnchor(edges, t, gray, y)
    {
      assert HasAnchor(edges, s, gray, y);
      var x :| x in gray && AnchoredAt(edges, s, y, x);
      assert AnchoredAt(edges, t, y, x);
    }
  }

  lemma BoundsWeaken(edges: seq<Import>, s0: Search, s: Search, low: nat, lower: nat, from: File)
    requires Bounds(edges, s, low, from) && lower <= low
    requires s0.onStack <= s.onStack && Keeps(s0, s)
    ensures Bounds(edges, s0, lower, from)
  {
  }

  lemma ChildWitness(edges: seq<Import>, s: Search, t: Search, gray: set<File>, node: File, next: File)
    requires Import(node, next) in edges && node in s.lowlinks && node in s.indices
    requires Inv(edges, s, gray) && Inv(edges, t, gray) && Explored(edges, s, t, next)
    requires Witnessed(edges, s, s.onStack, s.lowlinks[node], node) && s.lowlinks[node] <= s.indices[node]
    ensures var u := Lower(t, node, t.lowlinks[next]); Witnessed(edges, u, u.onStack, u.lowlinks[node], node)
  {
    hide Inv, Reaches, Bounds;
    InvSplits(edges, s, gray, t, gray);
    ReachesStep(edges, Import(node, next));
    if next in t.onStack {
      var y :| y in s.onStack && y in s.indices && s.indices[y] == t.lowlinks[next] && Reaches(edges, next, y);
      ReachesTrans(edges, node, next, y);
    }
  }

  /** The imported file was new: its call has returned in `t`. */
  lemma ScanChild(edges: seq<Import>, s0: Search, s: Search, t: Search, gray: set<File>, node: File, seen: seq<File>,
      next: File)
    requires Inv(edges, s0, gray) && node !in s0.indices
    requires Scanning(edges, s0, s, gray, node, seen) && Import(node, next) in edges && next !in s.indices
    requires Inv(edges, t, gray + {node}) && Explored(edges, s, t, next)
    ensures Scanning(edges, s0, Lower(t, node, t.lowlinks[next]), gray, node, seen + [next])
  {
    hide Inv, Witnessed, Bounds;
    InvSplits(edges, s0, gray, s, gray + {node});
    InvSplits(edges, s, gray + {node}, t, gray + {node});
    var u := Lower(t, node, t.lowlinks[next]);
    LowerKeepsInv(edges, t, gray + {node}, node, t.lowlinks[next]);
    ChildWitness(edges, s, t, gray + {node}, node, next);
    assert u.stack[..|s0.stack|] == s.stack[..|s0.stack|];
    forall k | |s0.stack| < k < |u.stack|
      ensures Bounds(edges, s0, u.lowlinks[node], u.stack[k])
    {
      if k < |s.stack| {
        BoundsWeaken(edges, s0, s0, s.lowlinks[node], u.lowlinks[node], s.stack[k]);
      } else {
        BoundsWeaken(edges, s0, s, t.lowlinks[next], u.lowlinks[node], t.stack[k]);
      }
    }
  }

  /** The imported file is on the stack. */
  lemma ScanBackEdge(edges: seq<Import>, s0: Search, s: Search, gray: set<File>, node: File, seen: seq<File>,
      next: File)
    requires Inv(edges, s0, gray)
    requires Scanning(edges, s0, s, gray, node, seen) && Import(node, next) in edges && next in s.onStack
    ensures Scanning(edges, s0, Lower(s, node, s.indices[next]), gray, node, seen + [next])
  {
    hide Inv, Reaches;
    InvSplits(edges, s0, gray, s, gray + {node});
    var u := Lower(s, node, s.indices[next]);
    LowerKeepsInv(edges, s, gray + {node}, node, s.indices[next]);
    ReachesStep(edges, Import(node, next));
    assert Witnessed(edges, u, u.onStack, u.lowlinks[node], node);
    forall k | |s0.stack| < k < |u.stack|
      ensures Bounds(edges, s0, u.lowlinks[node], u.stack[k])
    {
      assert Bounds(edges, s0, s.lowlinks[node], s.stack[k]);
    }
  }

  /** The imported file already belongs to an emitted component. */
  lemma ScanSettled(edges: seq<Import>, s0: Search, s: Search, gray: set<File>, node: File, seen: seq<File>, next: File)
    requires Inv(edges, s0, gray)
    requires Scanning(edges, s0, s, gray, node, seen) && next in s.indices && next !in s.onStack
    ensures Scanning(edges, s0, s, gray, node, seen + [next])
  {
    StackSplits(s0, s);
  }

  /** Every import of `node` has been handled. */
  ghost predicate Scanned(edges: seq<Import>, s0: Search, s: Search, gray: set<File>, node: File, seen: seq<File>) {
    && Inv(edges, s0, gray) && node !in s0.indices
    && Scanning(edges, s0, s, gray, node, seen)
    && (forall e :: e in edges && e.from == node ==> e.to in seen)
  }

  lemma ScanEnds(edges: seq<Import>, s0: Search, s: Search, gray: set<File>, node: File, seen: seq<File>)
    requires Inv(edges, s0, gray) && node !in s0.indices
    requires Scanning(edges, s0, s, gray, node, seen)
    requires forall v :: v in seen <==> Import(node, v) in edges
    ensures Scanned(edges, s0, s, gray, node, seen)
  {
    hide Inv, Scanning;
    forall e | e in edges && e.from == node
      ensures e.to in seen
    {
      assert e == Import(node, e.to);
    }
  }

  lemma ExploredFacts(edges: seq<Import>, s: Search, t: Search, gray: set<File>, next: File)
    requires Inv(edges, s, gray) && Inv(edges, t, gray) && Explored(edges, s, t, next)
    ensures s.indices.Keys <= t.indices.Keys && next in t.indices
    ensures t.lowlinks.Keys == t.indices.Keys
  {
    hide Reaches, ComponentsOk, Closed, BlackVisited, StackReach, Anchored, Bounds;
  }

  lemma SegmentBounds(edges: seq<Import>, s0: Search, s: Search, gray: set<File>, node: File, seen: seq<File>)
    requires Scanned(edges, s0, s, gray, node, seen)
    ensures forall k :: |s0.stack| <= k < |s.stack| ==> Bounds(edges, s0, s.lowlinks[node], s.stack[k])
  {
    hide Inv, Reaches;
  }

  /** The file the low link points at lies below the node, hence under an older open call. */
  lemma LowTarget(edges: seq<Import>, s0: Search, s: Search, gray: set<File>, node: File) returns (w: File)
    requires StackOk(s0) && StackOk(s) && Keeps(s0, s) && s0.stack <= s.stack
    requires |s0.stack| < |s.stack| && s.stack[|s0.stack|] == node
    requires node in s.indices && s.lowlinks[node] < s.indices[node]
    requires Witnessed(edges, s, s.onStack, s.lowlinks[node], node)
    ensures w in s0.onStack && s0.indices[w] == s.lowlinks[node] && Reaches(edges, node, w)
  {
    hide Reaches;
    StackSplits(s0, s);
    w :| w in s.onStack && w in s.indices && s.indices[w] == s.lowlinks[node] && Reaches(edges, node, w);
    assert forall k :: |s0.stack| < k < |s.stack| ==> s.indices[s.stack[|s0.stack|]] < s.indices[s.stack[k]];
  }

  lemma RetainAnchors(edges: seq<Import>, s0: Search, s: Search, gray: set<File>, node: File)
    requires Inv(edges, s0, gray) && Inv(edges, s, gray + {node}) && Keeps(s0, s) && s0.stack <= s.stack
    requires |s0.stack| < |s.stack| && s.stack[|s0.stack|] == node
    requires node in s.indices && s.lowlinks[node] < s.indices[node]
    requires Witnessed(edges, s, s.onStack, s.lowlinks[node], node)
    ensures Anchored(edges, s, gray) && Witnessed(edges, s0, s0.onStack, s.lowlinks[node], node)
  {
    hide Reaches, StackOk, ComponentsOk, Closed, BlackVisited, StackReach;
    InvSplits(edges, s0, gray, s, gray + {node});
    var w := LowTarget(edges, s0, s, gray, node);
    assert HasAnchor(edges, s0, gray, w);
    var a :| a in gray && AnchoredAt(edges, s0, w, a);
    ReachesTrans(edges, node, w, a);
    forall y | y in s.onStack
      ensures HasAnchor(edges, s, gray, y)
    {
      assert HasAnchor(edges, s, gray + {node}, y);
      var x :| x in gray + {node} && AnchoredAt(edges, s, y, x);
      if x == node {
        ReachesTrans(edges, y, node, a);
        assert AnchoredAt(edges, s, y, a);
      } else {
        assert x in gray;
      }
    }
  }

  /** The low link fell below the node: it stays on the stack, under an older open call. */
  lemma Retain(edges: seq<Import>, s0: Search, s: Search, gray: set<File>, node: File, seen: seq<File>)
    requires Scanned(edges, s0, s, gray, node, seen) && s.lowlinks[node] != s.indices[node]
    ensures Inv(edges, s, gray) && Explored(edges, s0, s, node)
  {
    hide Reaches, StackOk, ComponentsOk, Closed, StackReach, Bounds, Anchored;
    SegmentBounds(edges, s0, s, gray, node, seen);
    InvSplits(edges, s0, gray, s, gray + {node});
    RetainAnchors(edges, s0, s, gray, node);
    assert node in Segment(s0, s) by { assert s.stack[|s0.stack|..][0] == node; }
    assert BlackVisited(edges, s, gray);
  }

  function Reversed(c: seq<File>): (r: seq<File>)
    ensures |r| == |c|
    ensures forall k :: 0 <= k < |c| ==> r[k] == c[|c| - 1 - k]
  {
    seq(|c|, k requires 0 <= k < |c| => c[|c| - 1 - k])
  }

  /** The state after everything above the first `base` stack entries became a component. */
  function Emit(s: Search, base: nat): Search
    requires base <= |s.stack|
  {
    s.(stack := s.stack[..base],
       onStack := s.onStack - (set v | v in s.stack[base..]),
       components := s.components + [Reversed(s.stack[base..])])
  }

  lemma SegmentIsClosed(edges: seq<Import>, s0: Search, s: Search, gray: set<File>, node: File, seen: seq<File>)
    requires Scanned(edges, s0, s, gray, node, seen) && s.lowlinks[node] == s.indices[node]
    ensures Closed(edges, Done(s) + Segment(s0, s))
  {
    hide Reaches, ComponentsOk, StackReach, Anchored;
    SegmentBounds(edges, s0, s, gray, node, seen);
    InvSplits(edges, s0, gray, s, gray + {node});
    forall e | e in edges && e.from in Segment(s0, s)
      ensures e.to in Done(s) + Segment(s0, s)
    {
      var k :| |s0.stack| <= k < |s.stack| && s.stack[k] == e.from;
      assert Bounds(edges, s0, s.lowlinks[node], s.stack[k]);
      assert e.from !in gray;
      assert e.to in s.indices;
    }
  }

  /** The stack above and including `node` is exactly the component of `node`. */
  lemma SegmentIsScc(edges: seq<Import>, s0: Search, s: Search, gray: set<File>, node: File, seen: seq<File>)
    requires Scanned(edges, s0, s, gray, node, seen) && s.lowlinks[node] == s.indices[node]
    ensures forall v :: v in Segment(s0, s) <==> Mutual(edges, node, v)
  {
    hide Reaches, StackOk, ComponentsOk, Closed, BlackVisited, Bounds;
    SegmentIsClosed(edges, s0, s, gray, node, seen);
    InvSplits(edges, s0, gray, s, gray + {node});
    var segment := Segment(s0, s);
    var trap := Done(s) + segment;
    assert node in segment by { assert s.stack[|s0.stack|..][0] == node; }
    forall v
      ensures v in segment <==> Mutual(edges, node, v)
    {
      if v in segment {
        var k :| |s0.stack| <= k < |s.stack| && s.stack[k] == v;
        assert Reaches(edges, s.stack[|s0.stack|], s.stack[k]);
        assert HasAnchor(edges, s, gray + {node}, v);
        var x :| x in gray + {node} && AnchoredAt(edges, s, v, x);
        ClosedTrapsReach(edges, trap, v, x);
        assert x == node;
      }
      if Mutual(edges, node, v) {
        ClosedTrapsReach(edges, trap, node, v);
        if v !in segment {
          ClosedTrapsReach(edges, Done(s), v, node);
        }
      }
    }
  }

  lemma MutualClass(edges: seq<Import>, root: File, c: seq<File>)
    requires forall v :: v in c <==> Mutual(edges, root, v)
    ensures forall u, v :: u in c ==> (v in c <==> Mutual(edges, u, v))
  {
    hide Reaches;
    forall u, v | u in c
      ensures v in c <==> Mutual(edges, u, v)
    {
      if v in c {
        ReachesTrans(edges, u, root, v);
        ReachesTrans(edges, v, root, u);
      }
      if Mutual(edges, u, v) {
        ReachesTrans(edges, root, u, v);
        ReachesTrans(edges, v, u, root);
      }
    }
  }

  lemma SegmentDistinct(s: Search, base: nat)
    requires StackOk(s) && base <= |s.stack|
    ensures var c := Reversed(s.stack[base..]); forall i, j :: 0 <= i < j < |c| ==> c[i] != c[j]
  {
    var c := Reversed(s.stack[base..]);
    forall i, j | 0 <= i < j < |c|
      ensures c[i] != c[j]
    {
      assert c[i] == s.stack[|s.stack| - 1 - i] && c[j] == s.stack[|s.stack| - 1 - j];
    }
  }

  lemma SegmentReversedIsScc(edges: seq<Import>, s0: Search, s: Search, gray: set<File>, node: File, seen: seq<File>)
    requires Scanned(edges, s0, s, gray, node, seen) && s.lowlinks[node] == s.indices[node]
    ensures var c := Reversed(s.stack[|s0.stack|..]); IsScc(edges, c) && forall v :: v in c <==> v in Segment(s0, s)
  {
    hide Reaches, StackOk, ComponentsOk, Closed, BlackVisited, Bounds, StackReach, Anchored;
    SegmentIsScc(edges, s0, s, gray, node, seen);
    var segment := s.stack[|s0.stack|..];
    var c := Reversed(segment);
    forall v | v in segment ensures v in c {
      var k :| 0 <= k < |segment| && segment[k] == v;
      assert c[|segment| - 1 - k] == v;
    }
    MutualClass(edges, node, c);
    SegmentDistinct(s, |s0.stack|);
  }

  lemma EmitComponent(edges: seq<Import>, components: seq<seq<File>>, done: set<File>, c: seq<File>, files: set<File>)
    requires ComponentsOk(edges, components, done) && IsScc(edges, c)
    requires files !! done && forall v :: v in c <==> v in files
    ensures ComponentsOk(edges, components + [c], done + files)
  {
    hide IsScc;
    var all := components + [c];
    assert all[|components|] == c;
    forall v | v in done + files
      ensures Listed(all, v)
    {
      if v in done {
        assert Listed(components, v);
        var k :| 0 <= k < |components| && v in components[k];
        assert v in all[k];
      } else {
        assert v in all[|components|];
      }
    }
  }

  lemma SettleAnchors(edges: seq<Import>, s0: Search, t: Search, gray: set<File>)
    requires Anchored(edges, s0, gray) && t.onStack == s0.onStack && Keeps(s0, t)
    ensures Anchored(edges, t, gray)
  {
    hide Reaches;
    forall y | y in t.onStack
      ensures HasAnchor(edges, t, gray, y)
    {
      assert HasAnchor(edges, s0, gray, y);
      var x :| x in gray && AnchoredAt(edges, s0, y, x);
      assert AnchoredAt(edges, t, y, x);
    }
  }

  /** The low link met the node: its component is emitted and the stack is as the call found it. */
  lemma Settle(edges: seq<Import>, s0: Search, s: Search, gray: set<File>, node: File, seen: seq<File>)
    requires Scanned(edges, s0, s, gray, node, seen) && s.lowlinks[node] == s.indices[node]
    ensures Inv(edges, Emit(s, |s0.stack|), gray) && Explored(edges, s0, Emit(s, |s0.stack|), node)
  {
    hide Reaches, IsScc, Bounds, ComponentsOk, Closed, Anchored;
    SegmentIsClosed(edges, s0, s, gray, node, seen);
    SegmentReversedIsScc(edges, s0, s, gray, node, seen);
    InvSplits(edges, s0, gray, s, gray + {node});
    var t := Emit(s, |s0.stack|);
    EmitComponent(edges, s.components, Done(s), Reversed(s.stack[|s0.stack|..]), Segment(s0, s));
    assert t.stack == s0.stack && t.onStack == s0.onStack;
    assert Done(t) == Done(s) + Segment(s0, s);
    SettleAnchors(edges, s0, t, gray);
    assert node in Segment(s0, s) by { assert s.stack[|s0.stack|..][0] == node; }
    assert BlackVisited(edges, t, gray);
  }
}
