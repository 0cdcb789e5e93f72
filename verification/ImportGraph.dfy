/** The import relation of a repository snapshot, and reachability along it. */
module ImportGraph {

  type File = string

  datatype Import = Import(from: File, to: File)

  ghost predicate IsPath(edges: seq<Import>, p: seq<File>) {
    && |p| > 0
    && forall i :: 0 <= i < |p| - 1 ==> Import(p[i], p[i + 1]) in edges
  }

  ghost predicate Reaches(edges: seq<Import>, u: File, v: File) {
    exists p :: IsPath(edges, p) && p[0] == u && p[|p| - 1] == v
  }

  /** A path of at least one import that comes back to where it started. */
  ghost predicate OnCycle(edges: seq<Import>, u: File) {
    exists p :: IsPath(edges, p) && |p| >= 2 && p[0] == u && p[|p| - 1] == u
  }

  ghost predicate Mutual(edges: seq<Import>, u: File, v: File) {
    Reaches(edges, u, v) && Reaches(edges, v, u)
  }

  /** Every file that occurs at either end of an import. */
  ghost function Endpoints(edges: seq<Import>): set<File> {
    (set e | e in edges :: e.from) + (set e | e in edges :: e.to)
  }

  /** No import leads out of `files`. */
  ghost predicate Closed(edges: seq<Import>, files: set<File>) {
    forall e :: e in edges && e.from in files ==> e.to in files
  }

  lemma ReachesSelf(edges: seq<Import>, u: File)
    ensures Reaches(edges, u, u)
  {
    assert IsPath(edges, [u]);
  }

  lemma ReachesStep(edges: seq<Import>, e: Import)
    requires e in edges
    ensures Reaches(edges, e.from, e.to)
  {
    assert IsPath(edges, [e.from, e.to]);
  }

  lemma ReachesTrans(edges: seq<Import>, u: File, v: File, w: File)
    requires Reaches(edges, u, v) && Reaches(edges, v, w)
    ensures Reaches(edges, u, w)
  {
    var p :| IsPath(edges, p) && p[0] == u && p[|p| - 1] == v;
    var q :| IsPath(edges, q) && q[0] == v && q[|q| - 1] == w;
    var r := p + q[1..];
    forall i | 0 <= i < |r| - 1
      ensures Import(r[i], r[i + 1]) in edges
    {
      if i >= |p| - 1 {
        assert r[i] == q[i - (|p| - 1)] && r[i + 1] == q[i - (|p| - 1) + 1];
      }
    }
    assert IsPath(edges, r) && r[0] == u && r[|r| - 1] == w;
  }

  lemma ClosedTrapsReach(edges: seq<Import>, files: set<File>, u: File, v: File)
    requires Closed(edges, files) && u in files && Reaches(edges, u, v)
    ensures v in files
  {
    var p :| IsPath(edges, p) && p[0] == u && p[|p| - 1] == v;
    var i := 0;
    while i < |p| - 1
      invariant 0 <= i <= |p| - 1 && p[i] in files
    {
      assert Import(p[i], p[i + 1]) in edges;
      i := i + 1;
    }
  }

  /** A file is on a cycle exactly when one of its imports leads back to it. */
  lemma CycleThroughImport(edges: seq<Import>, u: File)
    ensures OnCycle(edges, u) <==> exists e :: e in edges && e.from == u && Reaches(edges, e.to, u)
  {
    if OnCycle(edges, u) {
      var p :| IsPath(edges, p) && |p| >= 2 && p[0] == u && p[|p| - 1] == u;
      var e := Import(p[0], p[1]);
      assert e in edges;
      var q := p[1..];
      assert forall i :: 0 <= i < |q| - 1 ==> Import(q[i], q[i + 1]) in edges by {
        forall i | 0 <= i < |q| - 1 ensures Import(q[i], q[i + 1]) in edges {
          assert q[i] == p[i + 1] && q[i + 1] == p[i + 2];
        }
      }
      assert IsPath(edges, q);
      assert e in edges && e.from == u && Reaches(edges, e.to, u);
    }
    if e :| e in edges && e.from == u && Reaches(edges, e.to, u) {
      var q :| IsPath(edges, q) && q[0] == e.to && q[|q| - 1] == u;
      var p := [u] + q;
      assert forall i :: 0 <= i < |p| - 1 ==> Import(p[i], p[i + 1]) in edges;
      assert IsPath(edges, p) && |p| >= 2 && p[0] == u && p[|p| - 1] == u;
    }
  }
}
