/** Which recorded claims may be published as current, and which stand in conflict. */
module Knowledge {
  import opened Wrappers

  /** Identifiers and timestamps are ranks of the source's string order. */
  type Id = nat

  datatype Status = Active | MarkedStale | MarkedConflicted

  datatype Binding = SourceDigest(uri: string, digest: string) | Membership(name: string, digest: string)

  datatype Record = Record(
    id: Id, projectId: string, revision: string, kind: nat, statement: string, status: Status,
    bindings: seq<Binding>, subject: Option<string>, createdAt: nat)

  datatype Input = Input(
    projectId: string, revision: string, sources: map<string, string>, memberships: map<string, string>,
    ids: Option<set<Id>>, kinds: Option<set<nat>>, limit: nat)

  datatype State = Current | Stale | Unknown | Conflicted

  // --------------------------------------------------------------------------- one record

  function Found(b: Binding, input: Input): Option<string> {
    match b
    case SourceDigest(uri, _) => if uri in input.sources then Some(input.sources[uri]) else None
    case Membership(name, _) => if name in input.memberships then Some(input.memberships[name]) else None
  }

  predicate Broken(b: Binding, input: Input) {
    Found(b, input).Some? && Found(b, input).value != b.digest
  }

  /** What the record's own bindings say, looked at one by one. */
  method StateFromBindings(r: Record, input: Input) returns (state: State)
    ensures state == Bound(r, input)
  {
    if r.status == MarkedStale { return Stale; }
    if r.status == MarkedConflicted { return Conflicted; }
    if r.bindings == [] { return if r.revision == input.revision then Unknown else Stale; }
    var missing := false;
    var i := 0;
    while i < |r.bindings|
      invariant 0 <= i <= |r.bindings|
      invariant forall j :: 0 <= j < i ==> !Broken(r.bindings[j], input)
      invariant missing <==> exists j :: 0 <= j < i && Found(r.bindings[j], input) == None
    {
      var found := Found(r.bindings[i], input);
      if found.None? {
        missing := true;
      } else if found.value != r.bindings[i].digest {
        assert Broken(r.bindings[i], input);
        return Stale;
      }
      i := i + 1;
    }
    return if missing then Unknown else Current;
  }

  /** Current only if there are bindings and every one of them is found unchanged. */
  function Bound(r: Record, input: Input): State {
    if r.status == MarkedStale then Stale
    else if r.status == MarkedConflicted then Conflicted
    else if r.bindings == [] then (if r.revision == input.revision then Unknown else Stale)
    else if exists j :: 0 <= j < |r.bindings| && Broken(r.bindings[j], input) then Stale
    else if exists j :: 0 <= j < |r.bindings| && Found(r.bindings[j], input) == None then Unknown
    else Current
  }

  // ------------------------------------------------------------------------ all the records

  /** The last record under an identifier decides what its bindings say. */
  function Base(records: seq<Record>, input: Input): (m: map<Id, State>)
    ensures forall id :: id in m <==> exists r :: r in records && r.id == id
  {
    if records == [] then map[]
    else
      var last := records[|records| - 1];
      Base(records[..|records| - 1], input)[last.id := Bound(last, input)]
  }

  /** A compiled claim that its bindings hold current. */
  predicate Claims(records: seq<Record>, input: Input, r: Record) {
    r in records && r.id in Base(records, input) && Base(records, input)[r.id] == Current && r.subject.Some?
  }

  predicate Contradicts(a: Record, b: Record) {
    a.subject == b.subject && a.statement != b.statement
  }

  /** Another claim says something else about the same subject. */
  ghost predicate Contested(records: seq<Record>, input: Input, r: Record) {
    exists other :: Claims(records, input, other) && Contradicts(r, other)
  }

  ghost predicate Disputed(records: seq<Record>, input: Input, id: Id) {
    exists r :: Claims(records, input, r) && r.id == id && Contested(records, input, r)
  }

  ghost function Final(records: seq<Record>, input: Input, id: Id): State
    requires id in Base(records, input)
  {
    if Disputed(records, input, id) then Conflicted else Base(records, input)[id]
  }

  predicate Unanimous(records: seq<Record>) {
    forall i :: 0 <= i < |records| ==> records[i].statement == records[0].statement
  }

  /** The claims grouped by subject. */
  ghost predicate Grouped(records: seq<Record>, upTo: seq<Record>, input: Input, groups: map<string, seq<Record>>) {
    && (forall s, r :: s in groups && r in groups[s] ==> Claims(records, input, r) && r.subject == Some(s))
    && (forall r :: r in upTo && Claims(records, input, r) ==>
       r.subject.value in groups && r in groups[r.subject.value])
  }

  method ClassifyKnowledgeRecords(records: seq<Record>, input: Input) returns (states: map<Id, State>)
    ensures states.Keys == Base(records, input).Keys
    ensures forall id :: id in states ==> states[id] == Final(records, input, id)
  {
    states := map[];
    var i := 0;
    while i < |records|
      invariant 0 <= i <= |records| && states == Base(records[..i], input)
    {
      assert records[..i + 1][..i] == records[..i];
      var state := StateFromBindings(records[i], input);
      states := states[records[i].id := state];
      i := i + 1;
    }
    assert records[..i] == records;
    var groups := GroupBySubject(records, input, states);
    states := MarkConflicts(records, input, states, groups);
  }

  lemma NotAClaim(records: seq<Record>, upTo: seq<Record>, input: Input, groups: map<string, seq<Record>>, r: Record)
    requires Grouped(records, upTo, input, groups) && !Claims(records, input, r)
    ensures Grouped(records, upTo + [r], input, groups)
  {
    hide Claims;
  }

  lemma OneMoreClaim(records: seq<Record>, upTo: seq<Record>, input: Input, groups: map<string, seq<Record>>, r: Record)
    requires Grouped(records, upTo, input, groups) && Claims(records, input, r) && r.subject.Some?
    ensures var s := r.subject.value;
            Grouped(records, upTo + [r], input, groups[s := (if s in groups then groups[s] else []) + [r]])
  {
    hide Base;
    var s := r.subject.value;
    var more := groups[s := (if s in groups then groups[s] else []) + [r]];
    assert r in more[s];
    forall q | q in upTo + [r] && Claims(records, input, q)
      ensures q.subject.value in more && q in more[q.subject.value]
    {
      if q in upTo { assert q in groups[q.subject.value]; }
    }
  }

  lemma ClaimsIff(records: seq<Record>, input: Input, r: Record)
    requires r in records
    ensures r.id in Base(records, input)
    ensures Claims(records, input, r) <==> Base(records, input)[r.id] == Current && r.subject.Some?
  {
  }

  method GroupBySubject(records: seq<Record>, input: Input, states: map<Id, State>)
      returns (groups: map<string, seq<Record>>)
    requires states == Base(records, input)
    ensures Grouped(records, records, input, groups)
  {
    hide Base, Claims, Grouped;
    groups := map[];
    NothingGrouped(records, input);
    var i := 0;
    assert records[..0] == [];
    while i < |records|
      invariant 0 <= i <= |records| && Grouped(records, records[..i], input, groups)
    {
      var r := records[i];
      assert r in records && records[..i + 1] == records[..i] + [r];
      ClaimsIff(records, input, r);
      if states[r.id] == Current && r.subject.Some? {
        var s := r.subject.value;
        OneMoreClaim(records, records[..i], input, groups, r);
        groups := groups[s := (if s in groups then groups[s] else []) + [r]];
      } else {
        NotAClaim(records, records[..i], input, groups, r);
      }
      i := i + 1;
    }
    assert records[..i] == records;
  }

  lemma NothingGrouped(records: seq<Record>, input: Input)
    ensures Grouped(records, [], input, map[])
  {
  }

  method MarkGroup(states: map<Id, State>, group: seq<Record>) returns (marked: map<Id, State>)
    requires forall i :: 0 <= i < |group| ==> group[i].id in states
    ensures marked.Keys == states.Keys
    ensures forall id :: id in states ==>
      marked[id] == if exists i :: 0 <= i < |group| && group[i].id == id then Conflicted else states[id]
  {
    marked := states;
    var i := 0;
    while i < |group|
      invariant 0 <= i <= |group| && marked.Keys == states.Keys
      invariant forall id :: id in states ==>
        marked[id] == if exists j :: 0 <= j < i && group[j].id == id then Conflicted else states[id]
    {
      marked := marked[group[i].id := Conflicted];
      i := i + 1;
    }
  }

  /** Every record of a group with two statements becomes conflicted. */
  method MarkConflicts(records: seq<Record>, input: Input, base: map<Id, State>, groups: map<string, seq<Record>>)
    returns (states: map<Id, State>)
    requires base == Base(records, input) && Grouped(records, records, input, groups)
    ensures states.Keys == base.Keys
    ensures forall id :: id in states ==> states[id] == Final(records, input, id)
  {
    hide Base, Claims, Contested;
    states := base;
    var todo := groups.Keys;
    while todo != {}
      invariant todo <= groups.Keys && states.Keys == base.Keys
      invariant forall id :: id in base ==>
                states[id] == if InGroup(groups, groups.Keys - todo, id) then Conflicted else base[id]
      decreases |todo|
    {
      var s :| s in todo;
      ghost var past := groups.Keys - todo;
      todo := todo - {s};
      assert groups.Keys - todo == past + {s};
      if !Unanimous(groups[s]) {
        forall i | 0 <= i < |groups[s]| ensures groups[s][i].id in states {
          assert groups[s][i] in groups[s];
          ClaimKnown(records, input, groups[s][i]);
        }
        states := MarkGroup(states, groups[s]);
      }
      forall id | id in base
        ensures states[id] == if InGroup(groups, past + {s}, id) then Conflicted else base[id]
      {
        InOneMore(groups, past, s, id);
      }
    }
    forall id | id in base
      ensures states[id] == Final(records, input, id)
    {
      DisputedIffInGroup(records, input, groups, id);
    }
  }

  /** Some group of these subjects with two statements holds a record of this identifier. */
  ghost predicate InGroup(groups: map<string, seq<Record>>, subjects: set<string>, id: Id) {
    exists s :: s in subjects && InOne(groups, s, id)
  }

  ghost predicate InOne(groups: map<string, seq<Record>>, s: string, id: Id) {
    s in groups && !Unanimous(groups[s]) && exists j :: 0 <= j < |groups[s]| && groups[s][j].id == id
  }

  lemma InOneMore(groups: map<string, seq<Record>>, past: set<string>, s: string, id: Id)
    ensures InGroup(groups, past + {s}, id) <==> InGroup(groups, past, id) || InOne(groups, s, id)
  {
  }

  lemma ClaimKnown(records: seq<Record>, input: Input, r: Record)
    requires Claims(records, input, r)
    ensures r.id in Base(records, input)
  {
  }

  lemma DisputedIffInGroup(records: seq<Record>, input: Input, groups: map<string, seq<Record>>, id: Id)
    requires Grouped(records, records, input, groups)
    ensures Disputed(records, input, id) <==> InGroup(groups, groups.Keys, id)
  {
    hide Base;
    if Disputed(records, input, id) {
      var r :| Claims(records, input, r) && r.id == id && Contested(records, input, r);
      var other :| Claims(records, input, other) && Contradicts(r, other);
      var g := groups[r.subject.value];
      assert r in g && other in g;
      assert InOne(groups, r.subject.value, id);
    }
    if InGroup(groups, groups.Keys, id) {
      var s :| s in groups.Keys && InOne(groups, s, id);
      var j :| 0 <= j < |groups[s]| && groups[s][j].id == id;
      var r := groups[s][j];
      var k :| 0 <= k < |groups[s]| && groups[s][k].statement != groups[s][0].statement;
      var other := if groups[s][k].statement != r.statement then groups[s][k] else groups[s][0];
      assert r in groups[s] && other in groups[s] && Contradicts(r, other);
      assert Contested(records, input, r);
    }
  }

  // ------------------------------------------------------------------ what classification keeps

  predicate DistinctIds(records: seq<Record>) {
    forall i, j :: 0 <= i < j < |records| ==> records[i].id != records[j].id
  }

  predicate Within(a: seq<Record>, b: seq<Record>) {
    forall r :: r in a ==> r in b
  }

  lemma {:induction false} BaseOfDistinct(records: seq<Record>, input: Input, r: Record)
    requires DistinctIds(records) && r in records
    ensures r.id in Base(records, input) && Base(records, input)[r.id] == Bound(r, input)
  {
    var last := records[|records| - 1];
    if r != last {
      var init := records[..|records| - 1];
      var i :| 0 <= i < |records| && records[i] == r;
      assert init[i] == r;
      BaseOfDistinct(init, input, r);
    }
  }

  lemma ClaimsAlone(records: seq<Record>, input: Input, r: Record)
    requires DistinctIds(records) && r in records
    ensures Claims(records, input, r) <==> Bound(r, input) == Current && r.subject.Some?
  {
    BaseOfDistinct(records, input, r);
  }

  lemma SameId(records: seq<Record>, a: Record, b: Record)
    requires DistinctIds(records) && a in records && b in records && a.id == b.id
    ensures a == b
  {
  }

  /** With distinct identifiers, a record is current iff its bindings say so and no other claim contests it. */
  lemma CurrentIff(records: seq<Record>, input: Input, r: Record)
    requires DistinctIds(records) && r in records
    ensures r.id in Base(records, input)
    ensures Final(records, input, r.id) == (
              if Bound(r, input) == Current && r.subject.Some? && ContestedIn(records, input, r) then Conflicted
                  else Bound(r, input))
  {
    hide Base, Bound, Claims;
    BaseOfDistinct(records, input, r);
    ClaimsAlone(records, input, r);
    if Disputed(records, input, r.id) {
      var q :| Claims(records, input, q) && q.id == r.id && Contested(records, input, q);
      ClaimIsRecord(records, input, q);
      SameId(records, q, r);
      var other :| Claims(records, input, other) && Contradicts(r, other);
      ClaimIsRecord(records, input, other);
      ClaimsAlone(records, input, other);
    }
    if ContestedIn(records, input, r) {
      var other :| other in records && ContestedBy(r, other, input);
      ClaimsAlone(records, input, other);
      if Claims(records, input, r) { assert Contested(records, input, r); }
    }
  }

  predicate ContestedBy(r: Record, other: Record, input: Input) {
    Bound(other, input) == Current && other.subject.Some? && Contradicts(r, other)
  }

  predicate ContestedIn(records: seq<Record>, input: Input, r: Record) {
    exists other :: other in records && ContestedBy(r, other, input)
  }

  lemma ClaimIsRecord(records: seq<Record>, input: Input, r: Record)
    requires Claims(records, input, r)
    ensures r in records
  {
  }

  /** The order of the records does not matter. */
  lemma ClassificationIgnoresOrder(a: seq<Record>, b: seq<Record>, input: Input, r: Record)
    requires DistinctIds(a) && DistinctIds(b) && Within(a, b) && Within(b, a) && r in a
    ensures r.id in Base(a, input) && r.id in Base(b, input) && Final(a, input, r.id) == Final(b, input, r.id)
  {
    hide Base, Bound, Final;
    CurrentIff(a, input, r);
    CurrentIff(b, input, r);
    assert ContestedIn(a, input, r) == ContestedIn(b, input, r);
  }

  /** More records can only turn a current one into a conflicted one. */
  lemma AddingOnlyConflicts(a: seq<Record>, b: seq<Record>, input: Input, r: Record)
    requires DistinctIds(a) && DistinctIds(b) && Within(a, b) && r in a
    ensures r.id in Base(a, input) && r.id in Base(b, input)
    ensures var was, now := Final(a, input, r.id), Final(b, input, r.id);
            now == was || (was == Current && now == Conflicted)
  {
    hide Base, Bound, Final;
    CurrentIff(a, input, r);
    CurrentIff(b, input, r);
    if ContestedIn(a, input, r) {
      var other :| other in a && ContestedBy(r, other, input);
      assert other in b;
    }
  }

  /** No two current compiled records say different things about one subject. */
  lemma CurrentClaimsAgree(records: seq<Record>, input: Input, a: Record, b: Record)
    requires DistinctIds(records) && a in records && b in records && a.subject.Some? && a.subject == b.subject
    requires a.id in Base(records, input) && b.id in Base(records, input)
    requires Final(records, input, a.id) == Current && Final(records, input, b.id) == Current
    ensures a.statement == b.statement
  {
    hide Base, Final;
    CurrentIff(records, input, a);
    CurrentIff(records, input, b);
    assert ContestedBy(a, b, input) ==> ContestedIn(records, input, a);
  }

  // ------------------------------------------------------------------------------ resolution

  /** Nothing is published current from a read that may have missed a conflicting claim. */
  ghost function Published(records: seq<Record>, input: Input, truncated: bool): map<Id, State> {
    map id | id in Base(records, input) ::
      if truncated && Final(records, input, id) == Current then Unknown else Final(records, input, id)
  }

  predicate Asked(r: Record, input: Input) {
    && r.projectId == input.projectId
    && (input.ids.Some? ==> r.id in input.ids.value)
    && (input.kinds.Some? ==> r.kind in input.kinds.value)
  }

  function Relevant(records: seq<Record>, input: Input): (r: seq<Record>)
    ensures Within(r, records)
  {
    if records == [] then []
    else
      var last := records[|records| - 1];
      Relevant(records[..|records| - 1], input) + (if Asked(last, input) then [last] else [])
  }

  /** Exactly the records asked for, as often and in the order they came. */
  lemma {:induction false} RelevantAre(records: seq<Record>, more: seq<Record>, input: Input)
    ensures Relevant(records + more, input) == Relevant(records, input) + Relevant(more, input)
    ensures |more| == 1 ==>
      Relevant(more, input) ==
        if more[0].projectId != input.projectId then []
        else if input.ids.Some? && more[0].id !in input.ids.value then []
        else if input.kinds.Some? && more[0].kind !in input.kinds.value then []
        else more
    decreases |more|
  {
    if more == [] {
      assert records + more == records;
    } else {
      var init := more[..|more| - 1];
      assert (records + more)[..|records + more| - 1] == records + init;
      RelevantAre(records, init, input);
      if |more| == 1 {
        assert init == [] && more == [more[0]];
      }
    }
  }

  function WithState(records: seq<Record>, states: map<Id, State>, state: State): (r: seq<Record>)
    ensures Within(r, records)
  {
    if records == [] then []
    else
      var last := records[|records| - 1];
      WithState(records[..|records| - 1], states, state) +
          (if last.id in states && states[last.id] == state then [last] else [])
  }

  function IdsOf(records: seq<Record>): seq<Id> {
    if records == [] then [] else IdsOf(records[..|records| - 1]) + [records[|records| - 1].id]
  }

  /** The four lists split the relevant records. */
  lemma {:induction false} StatesSplit(records: seq<Record>, states: map<Id, State>)
    requires forall r :: r in records ==> r.id in states
    ensures |WithState(records, states, Current)| + |WithState(records, states, Stale)|
          + |WithState(records, states, Unknown)| + |WithState(records, states, Conflicted)| == |records|
  {
    if records != [] {
      var last := records[|records| - 1];
      assert last in records;
      StatesSplit(records[..|records| - 1], states);
      OneState(states[last.id]);
    }
  }

  lemma OneState(s: State)
    ensures s == Current || s == Stale || s == Unknown || s == Conflicted
  {
  }

  /** Records of the asked revision first, then the latest, then by identifier. */
  predicate Precedes(l: Record, r: Record, input: Input) {
    var left, right := l.revision == input.revision, r.revision == input.revision;
    || (left && !right)
    || (left == right && (l.createdAt > r.createdAt || (l.createdAt == r.createdAt && l.id < r.id)))
  }

  /** What the order looks at, most important first; no two records that differ in it are left unordered. */
  lemma PrecedesByParts(l: Record, r: Record, input: Input)
    ensures l.revision == input.revision != r.revision ==> Precedes(l, r, input)
    ensures (l.revision == input.revision <==> r.revision == input.revision) ==>
      && (l.createdAt > r.createdAt ==> Precedes(l, r, input))
      && (l.createdAt == r.createdAt && l.id < r.id ==> Precedes(l, r, input))
      && (l.createdAt == r.createdAt && l.id == r.id ==> !Precedes(l, r, input))
    ensures Precedes(l, r, input) ==> !Precedes(r, l, input)
  {
  }

  predicate Ordered(records: seq<Record>, input: Input) {
    forall i, j :: 0 <= i < j < |records| ==> !Precedes(records[j], records[i], input)
  }

  function Inserted(sorted: seq<Record>, r: Record, input: Input): seq<Record> {
    if sorted == [] || !Precedes(r, sorted[|sorted| - 1], input) then sorted + [r]
    else Inserted(sorted[..|sorted| - 1], r, input) + [sorted[|sorted| - 1]]
  }

  lemma {:induction false} InsertedElements(sorted: seq<Record>, r: Record, input: Input)
    ensures multiset(Inserted(sorted, r, input)) == multiset(sorted) + multiset{r}
    ensures forall q :: q in Inserted(sorted, r, input) ==> q == r || q in sorted
  {
    hide Precedes;
    if sorted != [] && Precedes(r, sorted[|sorted| - 1], input) {
      var init, last := sorted[..|sorted| - 1], sorted[|sorted| - 1];
      InsertedElements(init, r, input);
      assert sorted == init + [last];
    }
  }

  /** No record of the list comes after this one. */
  predicate NoneAfter(records: seq<Record>, r: Record, input: Input) {
    forall i :: 0 <= i < |records| ==> !Precedes(r, records[i], input)
  }

  lemma OrderedMore(records: seq<Record>, r: Record, input: Input)
    requires Ordered(records, input) && NoneAfter(records, r, input)
    ensures Ordered(records + [r], input)
  {
    hide Precedes;
  }

  lemma OrderedLess(records: seq<Record>, input: Input)
    requires Ordered(records, input) && records != []
    ensures Ordered(records[..|records| - 1], input) &&
            NoneAfter(records[..|records| - 1], records[|records| - 1], input)
  {
    hide Precedes;
  }

  lemma NoneAfterLast(records: seq<Record>, r: Record, input: Input)
    requires Ordered(records, input) && (records != [] ==> !Precedes(r, records[|records| - 1], input))
    ensures NoneAfter(records, r, input)
  {
    forall i | 0 <= i < |records| ensures !Precedes(r, records[i], input) {
      if i < |records| - 1 { assert !Precedes(records[|records| - 1], records[i], input); }
    }
  }

  lemma {:induction false} InsertedOrdered(sorted: seq<Record>, r: Record, input: Input)
    requires Ordered(sorted, input)
    ensures Ordered(Inserted(sorted, r, input), input)
  {
    hide Ordered, NoneAfter;
    if sorted == [] || !Precedes(r, sorted[|sorted| - 1], input) {
      NoneAfterLast(sorted, r, input);
      OrderedMore(sorted, r, input);
    } else {
      var init, last := sorted[..|sorted| - 1], sorted[|sorted| - 1];
      OrderedLess(sorted, input);
      InsertedOrdered(init, r, input);
      InsertedElements(init, r, input);
      StillNoneAfter(init, Inserted(init, r, input), last, r, input);
      OrderedMore(Inserted(init, r, input), last, input);
    }
  }

  lemma StillNoneAfter(records: seq<Record>, more: seq<Record>, last: Record, r: Record, input: Input)
    requires NoneAfter(records, last, input) && Precedes(r, last, input)
    requires forall q :: q in more ==> q == r || q in records
    ensures NoneAfter(more, last, input)
  {
    forall i | 0 <= i < |more| ensures !Precedes(last, more[i], input) {
      assert more[i] in more;
    }
  }

  method Arrange(records: seq<Record>, input: Input) returns (sorted: seq<Record>)
    ensures Ordered(sorted, input) && multiset(sorted) == multiset(records)
  {
    sorted := [];
    var i := 0;
    while i < |records|
      invariant 0 <= i <= |records| && Ordered(sorted, input) && multiset(sorted) == multiset(records[..i])
    {
      InsertedElements(sorted, records[i], input);
      InsertedOrdered(sorted, records[i], input);
      assert records[..i + 1] == records[..i] + [records[i]];
      sorted := Inserted(sorted, records[i], input);
      i := i + 1;
    }
    assert records[..i] == records;
  }

  /** Two records of one compiled claim. */
  predicate SameClaim(a: Record, b: Record) {
    a.subject.Some? && a.subject == b.subject && a.statement == b.statement
  }

  /** The first record of each compiled claim, in order; every record dropped repeats one kept before it. */
  predicate FirstClaims(all: seq<Record>, kept: seq<Record>, input: Input) {
    && (forall i, j :: 0 <= i < j < |kept| ==> !SameClaim(kept[i], kept[j]))
    && Within(kept, all) && Ordered(kept, input)
    && (forall r :: r in all ==> r in kept || exists k :: k in kept && SameClaim(k, r) && !Precedes(r, k, input))
  }

  lemma NothingKept(sorted: seq<Record>, input: Input)
    ensures FirstClaims(sorted[..0], [], input)
  {
  }

  lemma Later(sorted: seq<Record>, i: nat, k: Record, input: Input)
    requires Ordered(sorted, input) && i < |sorted| && k in sorted[..i]
    ensures !Precedes(sorted[i], k, input)
  {
    hide Precedes;
  }

  lemma KeptAnother(sorted: seq<Record>, i: nat, kept: seq<Record>, k: Record, input: Input)
    requires Ordered(sorted, input) && i < |sorted| && FirstClaims(sorted[..i], kept, input)
    requires k in kept && SameClaim(k, sorted[i])
    ensures FirstClaims(sorted[..i] + [sorted[i]], kept, input)
  {
    hide Precedes, Ordered;
    Later(sorted, i, k, input);
  }

  lemma KeptOne(sorted: seq<Record>, i: nat, kept: seq<Record>, input: Input)
    requires Ordered(sorted, input) && i < |sorted| && FirstClaims(sorted[..i], kept, input)
    requires forall k :: k in kept ==> !SameClaim(k, sorted[i])
    ensures FirstClaims(sorted[..i] + [sorted[i]], kept + [sorted[i]], input)
  {
    hide Precedes, Ordered;
    forall j | 0 <= j < |kept| ensures !Precedes(sorted[i], kept[j], input) {
      assert kept[j] in kept;
      Later(sorted, i, kept[j], input);
    }
    OrderedMore(kept, sorted[i], input);
  }

  /** Keeps a record unless a compiled claim like it has been kept. */
  method Deduplicate(sorted: seq<Record>, input: Input) returns (kept: seq<Record>)
    requires Ordered(sorted, input)
    ensures FirstClaims(sorted, kept, input)
  {
    hide Precedes, FirstClaims, Ordered;
    kept := [];
    NothingKept(sorted, input);
    var seen: set<(string, string)> := {};
    var i := 0;
    while i < |sorted|
      invariant 0 <= i <= |sorted| && FirstClaims(sorted[..i], kept, input)
      invariant forall k :: k in kept && k.subject.Some? ==> (k.subject.value, k.statement) in seen
      invariant forall c :: c in seen ==> exists k :: k in kept && k.subject == Some(c.0) && k.statement == c.1
    {
      var r := sorted[i];
      assert sorted[..i + 1] == sorted[..i] + [r];
      if r.subject.Some? && (r.subject.value, r.statement) in seen {
        var k :| k in kept && k.subject == r.subject && k.statement == r.statement;
        KeptAnother(sorted, i, kept, k, input);
      } else {
        assert forall k :: k in kept ==> !SameClaim(k, r);
        KeptOne(sorted, i, kept, input);
        kept := kept + [r];
        if r.subject.Some? { seen := seen + {(r.subject.value, r.statement)}; }
      }
      i := i + 1;
    }
    assert sorted[..i] == sorted;
  }

  const MAX_PAGE := 500

  function PageLimit(limit: nat): nat { if limit < MAX_PAGE then limit else MAX_PAGE }

  /** The limit asked for, cut at the largest page there is. */
  lemma PageLimitIs(limit: nat)
    ensures PageLimit(limit) <= limit && PageLimit(limit) <= 500
    ensures limit <= 500 ==> PageLimit(limit) == limit
    ensures limit > 500 ==> PageLimit(limit) == 500
  {
  }

  datatype Resolution = Resolution(
    current: seq<Record>, staleIds: seq<Id>, unknownIds: seq<Id>, conflictedIds: seq<Id>, examined: nat,
    truncated: bool)

  /** The page of current records: a prefix of the arranged list, deduplicated unless identifiers were asked for. */
  ghost predicate IsPage(candidates: seq<Record>, page: seq<Record>, input: Input, cut: bool) {
    exists all: seq<Record> ::
      && Ordered(all, input)
      && (if input.ids.Some? then multiset(all) == multiset(candidates) else FirstClaims(candidates, all, input))
      && page == (if |all| <= PageLimit(input.limit) then all else all[..PageLimit(input.limit)])
      && (cut <==> |all| > PageLimit(input.limit))
  }

  lemma FirstOfPermuted(a: seq<Record>, b: seq<Record>, kept: seq<Record>, input: Input)
    requires multiset(a) == multiset(b) && FirstClaims(a, kept, input)
    ensures FirstClaims(b, kept, input)
  {
    hide Precedes;
    forall r ensures r in a <==> r in b {
      assert r in multiset(a) <==> r in multiset(b);
    }
  }

  lemma IsPublished(records: seq<Record>, input: Input, truncated: bool, states: map<Id, State>)
    requires states.Keys == Base(records, input).Keys
    requires forall id :: id in states ==>
      states[id] == if truncated && Final(records, input, id) == Current then Unknown else Final(records, input, id)
    ensures states == Published(records, input, truncated)
    ensures truncated ==> forall id :: id in states ==> states[id] != Current
  {
    hide Base, Final;
  }

  method ResolveKnowledgeRecords(records: seq<Record>, input: Input, sourceTruncated: bool) returns (result: Resolution)
    ensures var states, relevant := Published(records, input, sourceTruncated), Relevant(records, input);
            && result.staleIds == IdsOf(WithState(relevant, states, Stale))
            && result.unknownIds == IdsOf(WithState(relevant, states, Unknown))
            && result.conflictedIds == IdsOf(WithState(relevant, states, Conflicted))
            && result.examined == |relevant|
            && IsPage(WithState(relevant, states, Current), result.current, input, result.truncated && !sourceTruncated)
            && (sourceTruncated ==> result.truncated && result.current == [])
  {
    hide Base, Final, FirstClaims, Ordered, Precedes, Published, Relevant, WithState, IdsOf;
    var states := ClassifyKnowledgeRecords(records, input);
    if sourceTruncated {
      states := map id | id in states :: if states[id] == Current then Unknown else states[id];
    }
    IsPublished(records, input, sourceTruncated, states);
    var relevant := Relevant(records, input);
    var candidates := WithState(relevant, states, Current);
    var sorted := Arrange(candidates, input);
    var all := sorted;
    SameMembers(all, candidates);
    if input.ids.None? {
      all := Deduplicate(sorted, input);
      FirstOfPermuted(sorted, candidates, all, input);
      FirstIsOrdered(candidates, all, input);
    }
    var limit := PageLimit(input.limit);
    if sourceTruncated {
      NoneCurrent(relevant, states);
      NoneKept(candidates, all);
    }
    result := Resolution(
      if |all| <= limit then all else all[..limit],
      IdsOf(WithState(relevant, states, Stale)), IdsOf(WithState(relevant, states, Unknown)),
      IdsOf(WithState(relevant, states, Conflicted)), |relevant|, sourceTruncated || |all| > limit);
  }

  lemma FirstIsOrdered(all: seq<Record>, kept: seq<Record>, input: Input)
    requires FirstClaims(all, kept, input)
    ensures Ordered(kept, input) && Within(kept, all)
  {
  }

  lemma {:induction false} NoneCurrent(records: seq<Record>, states: map<Id, State>)
    requires forall id :: id in states ==> states[id] != Current
    ensures WithState(records, states, Current) == []
  {
    if records != [] { NoneCurrent(records[..|records| - 1], states); }
  }

  lemma SameMembers(a: seq<Record>, b: seq<Record>)
    requires multiset(a) == multiset(b)
    ensures Within(a, b)
  {
    forall r | r in a ensures r in b {
      assert r in multiset(a);
    }
  }

  lemma NoneKept(candidates: seq<Record>, all: seq<Record>)
    requires candidates == [] && Within(all, candidates)
    ensures all == []
  {
    if all != [] { HasMember(all); }
  }

  lemma HasMember(records: seq<Record>)
    requires records != []
    ensures exists r :: r in records
  {
    assert records[0] in records;
  }

  lemma {:induction false} IdsOfLength(records: seq<Record>)
    ensures |IdsOf(records)| == |records|
  {
    if records != [] { IdsOfLength(records[..|records| - 1]); }
  }

  lemma {:induction false} BaseHasAll(records: seq<Record>, input: Input, r: Record)
    requires r in records
    ensures r.id in Base(records, input)
  {
  }

  /** Current candidates, stale, unknown and conflicted records add up to those examined. */
  lemma ExaminedSplits(records: seq<Record>, input: Input, truncated: bool)
    ensures var states, relevant := Published(records, input, truncated), Relevant(records, input);
            |WithState(relevant, states, Current)| + |IdsOf(WithState(relevant, states, Stale))|
            + |IdsOf(WithState(relevant, states, Unknown))| + |IdsOf(WithState(relevant, states, Conflicted))| ==
                |relevant|
  {
    hide Base, Final, IdsOf, WithState;
    var states, relevant := Published(records, input, truncated), Relevant(records, input);
    forall r | r in relevant ensures r.id in states {
      BaseHasAll(records, input, r);
    }
    StatesSplit(relevant, states);
    IdsOfLength(WithState(relevant, states, Stale));
    IdsOfLength(WithState(relevant, states, Unknown));
    IdsOfLength(WithState(relevant, states, Conflicted));
  }

  /** Every published compiled claim is uncontested among the current ones, and published once. */
  lemma {:induction false} PageHasEachClaimOnce(candidates: seq<Record>, page: seq<Record>, input: Input, cut: bool,
      i: nat, j: nat)
    requires IsPage(candidates, page, input, cut) && input.ids.None? && i < j < |page|
    ensures !SameClaim(page[i], page[j]) && page[i] in candidates && page[j] in candidates &&
            !Precedes(page[j], page[i], input)
  {
    hide Precedes;
    var all :| Ordered(all, input) && FirstClaims(candidates, all, input)
               && page == (if |all| <= PageLimit(input.limit) then all else all[..PageLimit(input.limit)]);
    assert page[i] == all[i] && page[j] == all[j];
    assert all[i] in all && all[j] in all;
  }
}
