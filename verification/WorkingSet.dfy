/**
 * The resident working set of a mission: a bounded cache of context pages, with its accounts, its
 * revalidation against the page source and its rebasing onto another initial selection.
 */
module WorkingSet {
  import opened Wrappers
  import opened ContextPages

  datatype Budget = Budget(
    maxTextCharacters: nat, maxContextHandles: nat, maxPageRequests: nat,
    maxPageCount: nat, maxPageCharacters: nat, maxPageItems: nat)

  datatype Exhaustion = PageRequestLimit | PageCountLimit | ResidentCharacterBudget

  datatype EventType =
    | InitialSelection | PageEvicted | PageRequested | PageResolved | PageRejected
    | DuplicatePageRequest | ContextReused | BudgetExhausted | StalePageRejected

  datatype Entry = Entry(sequence: nat, what: EventType, before: nat, after: nat, requestCount: nat, pageCount: nat)

  /** What the page source answers when it is consulted. */
  datatype Answer =
    | Throws
    | Withholds(stale: bool)
    | Gives(content: string, related: seq<Handle>, source: nat, truncated: bool)

  datatype Status = Resolved | Reused | Rejected | Exhausted

  // ------------------------------------------------------------------------- the handle list

  /** Keeps the first place and the last value of each identifier. */
  function Deduplicated(handles: seq<Handle>): (r: seq<Handle>)
    ensures |r| <= |handles|
  {
    if handles == [] then []
    else Placed(Deduplicated(handles[..|handles| - 1]), handles[|handles| - 1])
  }

  function Placed(handles: seq<Handle>, h: Handle): (r: seq<Handle>)
    ensures |handles| <= |r| <= |handles| + 1
  {
    if handles == [] then [h]
    else if handles[0].id == h.id then [h] + handles[1..]
    else [handles[0]] + Placed(handles[1..], h)
  }

  predicate DistinctIds(handles: seq<Handle>) {
    forall i, j :: 0 <= i < j < |handles| ==> handles[i].id != handles[j].id
  }

  function Bounded<T>(items: seq<T>, max: nat): (r: seq<T>)
    ensures |r| <= max && r <= items
  {
    if |items| <= max then items else items[..max]
  }

  lemma {:induction false} PlacedIds(handles: seq<Handle>, h: Handle)
    requires DistinctIds(handles)
    ensures DistinctIds(Placed(handles, h))
    ensures forall x :: x in Placed(handles, h) ==> x == h || (x in handles && x.id != h.id)
  {
    if handles != [] && handles[0].id != h.id {
      PlacedIds(handles[1..], h);
    }
  }

  lemma {:induction false} DeduplicatedIds(handles: seq<Handle>)
    ensures DistinctIds(Deduplicated(handles))
  {
    if handles != [] {
      DeduplicatedIds(handles[..|handles| - 1]);
      PlacedIds(Deduplicated(handles[..|handles| - 1]), handles[|handles| - 1]);
    }
  }

  function Find(handles: seq<Handle>, id: nat): Option<Handle> {
    if handles == [] then None else if handles[0].id == id then Some(handles[0]) else Find(handles[1..], id)
  }

  /** The first handle with this identifier. */
  lemma {:induction false} FindIs(handles: seq<Handle>, id: nat)
    ensures match Find(handles, id)
            case None => forall i :: 0 <= i < |handles| ==> handles[i].id != id
            case Some(h) => exists i :: 0 <= i < |handles| && handles[i] == h && h.id == id &&
                                        forall j :: 0 <= j < i ==> handles[j].id != id
    decreases handles
  {
    if handles != [] {
      FindIs(handles[1..], id);
      if handles[0].id != id && Find(handles[1..], id).Some? {
        var h := Find(handles[1..], id).value;
        var i :| 0 <= i < |handles[1..]| && handles[1..][i] == h && h.id == id &&
                 forall j :: 0 <= j < i ==> handles[1..][j].id != id;
        assert handles[i + 1] == h && forall j :: 0 <= j < i + 1 ==> handles[j].id != id;
      }
    }
  }

  function Ids(handles: seq<Handle>): seq<nat> {
    seq(|handles|, i requires 0 <= i < |handles| => handles[i].id)
  }

  lemma {:induction false} PlacedIs(handles: seq<Handle>, h: Handle, id: nat)
    ensures Find(Placed(handles, h), id) == if id == h.id then Some(h) else Find(handles, id)
    ensures Ids(Placed(handles, h)) == if h.id in Ids(handles) then Ids(handles) else Ids(handles) + [h.id]
    decreases handles
  {
    if handles != [] {
      assert Ids(handles) == [handles[0].id] + Ids(handles[1..]);
      if handles[0].id == h.id {
        assert Ids(Placed(handles, h)) == Ids(handles);
      } else {
        PlacedIs(handles[1..], h, id);
        assert Ids(Placed(handles, h)) == [handles[0].id] + Ids(Placed(handles[1..], h));
      }
    }
  }

  /** Of each identifier the place it first came in is kept, with the handle that came last. */
  lemma DeduplicatedIs(handles: seq<Handle>, h: Handle, id: nat)
    ensures var was, now := Deduplicated(handles), Deduplicated(handles + [h]);
      && Find(now, id) == (if id == h.id then Some(h) else Find(was, id))
      && Ids(now) == if h.id in Ids(was) then Ids(was) else Ids(was) + [h.id]
  {
    assert (handles + [h])[..|handles|] == handles;
    PlacedIs(Deduplicated(handles), h, id);
  }

  // ------------------------------------------------------------------------------- rebasing

  /** The pages kept in order while they fit on top of what is already resident. */
  function Kept(pages: seq<Page>, resident: nat, max: nat): seq<Page> {
    if pages == [] then []
    else if resident + |pages[0].content| > max then Kept(pages[1..], resident, max)
    else [pages[0]] + Kept(pages[1..], resident + |pages[0].content|, max)
  }

  lemma {:induction false} CharactersFirst(page: Page, rest: seq<Page>)
    ensures Characters([page] + rest) == |page.content| + Characters(rest)
  {
    CharactersOfConcat([page], rest);
    Single(page, page.key);
  }

  lemma {:induction false} KeptFits(pages: seq<Page>, resident: nat, max: nat)
    requires resident <= max
    ensures resident + Characters(Kept(pages, resident, max)) <= max
    ensures |Kept(pages, resident, max)| <= |pages|
    ensures forall p :: p in Kept(pages, resident, max) ==> p in pages
  {
    if pages != [] {
      if resident + |pages[0].content| > max {
        KeptFits(pages[1..], resident, max);
      } else {
        var next := resident + |pages[0].content|;
        KeptFits(pages[1..], next, max);
        CharactersFirst(pages[0], Kept(pages[1..], next, max));
      }
    }
  }

  lemma {:induction false} KeptCount(pages: seq<Page>, resident: nat, max: nat)
    ensures |Kept(pages, resident, max)| == |pages| <==> Kept(pages, resident, max) == pages
    ensures |Kept(pages, resident, max)| <= |pages|
  {
    if pages != [] {
      if resident + |pages[0].content| > max {
        KeptCount(pages[1..], resident, max);
      } else {
        KeptCount(pages[1..], resident + |pages[0].content|, max);
      }
    }
  }

  /** Nothing is evicted when everything fits. */
  lemma {:induction false} KeptAllIff(pages: seq<Page>, resident: nat, max: nat)
    requires resident <= max
    ensures Kept(pages, resident, max) == pages <==> resident + Characters(pages) <= max
  {
    KeptFits(pages, resident, max);
    if pages != [] {
      var first := pages[0];
      assert pages == [first] + pages[1..];
      CharactersFirst(first, pages[1..]);
      if resident + |first.content| <= max {
        KeptAllIff(pages[1..], resident + |first.content|, max);
      } else {
        KeptFits(pages[1..], resident, max);
      }
    }
  }

  lemma {:induction false} KeptDistinct(pages: seq<Page>, resident: nat, max: nat)
    requires Distinct(pages)
    ensures Distinct(Kept(pages, resident, max))
    ensures forall p :: p in Kept(pages, resident, max) ==> p in pages
  {
    if pages != [] {
      var rest := pages[1..];
      if resident + |pages[0].content| > max {
        KeptDistinct(rest, resident, max);
      } else {
        assert forall p :: p in rest ==> p.key != pages[0].key;
        KeptDistinct(rest, resident + |pages[0].content|, max);
      }
    }
  }

  // ------------------------------------------------------------------------------ expansion

  function DropKey(keys: seq<Key>, key: Key): seq<Key> {
    if keys == [] then []
    else DropKey(keys[..|keys| - 1], key) + (if keys[|keys| - 1] == key then [] else [keys[|keys| - 1]])
  }

  lemma {:induction false} DropKeyOfKeys(pages: seq<Page>, key: Key)
    ensures DropKey(Keys(pages), key) == Keys(Without(pages, key))
  {
    if pages != [] {
      var init, last := pages[..|pages| - 1], pages[|pages| - 1];
      DropKeyOfKeys(init, key);
      assert Keys(pages)[..|pages| - 1] == Keys(init);
      KeysOfConcat(Without(init, key), if last.key == key then [] else [last]);
      assert Keys([last]) == [last.key];
    }
  }

  function Limit(budget: Budget, key: Key): nat {
    if key.maxCharacters.Some? && key.maxCharacters.value < budget.maxPageCharacters then key.maxCharacters.value
    else budget.maxPageCharacters
  }

  function Belonging(related: seq<Handle>, projectId: nat, revision: nat): seq<Handle> {
    if related == [] then []
    else
      var h := related[0];
      (if h.projectId == projectId && h.revision == revision && h.canonical then [h] else [])
      + Belonging(related[1..], projectId, revision)
  }

  /** The source's answer as it may become resident. */
  function Admitted(budget: Budget, key: Key, handle: Handle, answer: Answer): Page
    requires answer.Gives?
  {
    var content := Clip(answer.content, Limit(budget, key));
    Page(key, handle, content,
         Bounded(Belonging(answer.related, handle.projectId, handle.revision), budget.maxPageItems),
         answer.source, answer.truncated || Clipped(answer.content, Limit(budget, key)))
  }

  predicate Unchanged(was: Page, now: Page) {
    was.content == now.content && was.source == now.source && was.truncated == now.truncated &&
        was.related == now.related
  }

  /** A request never gets more characters than it asks for, nor than the budget gives one page. */
  lemma LimitIs(budget: Budget, key: Key)
    ensures Limit(budget, key) <= budget.maxPageCharacters
    ensures key.maxCharacters.Some? ==> Limit(budget, key) <= key.maxCharacters.value
    ensures Limit(budget, key) == budget.maxPageCharacters || key.maxCharacters == Some(Limit(budget, key))
  {
  }

  /** The related handles of this project and revision, canonical ones only, in their order. */
  lemma {:induction false} BelongingAre(related: seq<Handle>, more: seq<Handle>, projectId: nat, revision: nat)
    ensures Belonging(related + more, projectId, revision) ==
            Belonging(related, projectId, revision) + Belonging(more, projectId, revision)
    ensures |related| == 1 ==>
      Belonging(related, projectId, revision) ==
        if related[0].projectId != projectId || related[0].revision != revision then []
        else if related[0].canonical then related else []
    decreases related
  {
    if related == [] {
      assert related + more == more;
    } else {
      assert (related + more)[1..] == related[1..] + more;
      BelongingAre(related[1..], more, projectId, revision);
      assert |related| == 1 ==> related == [related[0]];
    }
  }

  /** An admitted page is marked truncated if its source cut it, or if it was clipped here. */
  lemma AdmittedIs(budget: Budget, key: Key, handle: Handle, answer: Answer)
    requires answer.Gives?
    ensures var page := Admitted(budget, key, handle, answer);
      && page.key == key && page.handle == handle && page.source == answer.source
      && (page.truncated <==> answer.truncated || |answer.content| > Limit(budget, key))
      && |page.related| <= budget.maxPageItems && page.content == Clip(answer.content, Limit(budget, key))
  {
  }

  /** A page is unchanged if it differs from what it was in nothing but its handle. */
  lemma UnchangedIff(was: Page, now: Page)
    requires was.key == now.key
    ensures Unchanged(was, now) <==> now == was.(handle := now.handle)
  {
  }

  function Types(ledger: seq<Entry>): seq<EventType> {
    seq(|ledger|, i requires 0 <= i < |ledger| => ledger[i].what)
  }

  lemma TypesAppend(ledger: seq<Entry>, e: Entry)
    ensures Types(ledger + [e]) == Types(ledger) + [e.what]
  {
  }

  predicate Numbered(ledger: seq<Entry>) {
    forall i :: 0 <= i < |ledger| ==> ledger[i].sequence == i + 1
  }

  function One(b: bool): nat { if b then 1 else 0 }

  function Size(page: Option<Page>): nat { if page.Some? then |page.value.content| else 0 }

  /** The entry that closes a request. */
  function Told(status: Status, stale: bool): EventType {
    match status
    case Resolved => PageResolved
    case Reused => ContextReused
    case Exhausted => BudgetExhausted
    case Rejected => if stale then StalePageRejected else PageRejected
  }

  /** The entries of a request that reached the source. */
  function Consulted(resident: bool, answer: Answer, status: Status): seq<EventType> {
    (if resident then [DuplicatePageRequest] else [])
    + (if resident && !answer.Gives? then [PageEvicted] else [])
    + [Told(status, answer == Withholds(true))]
  }

  /** A limit is on record from the request that ran into it until one becomes resident. */
  function ExhaustionAfter(status: Status, limit: Exhaustion, was: Option<Exhaustion>): Option<Exhaustion> {
    match status
    case Exhausted => Some(limit)
    case Rejected => was
    case Resolved => None
    case Reused => None
  }

  class MissionPages {
    const projectId: nat
    const revision: nat
    var budget: Budget
    var handles: seq<Handle>
    var pages: seq<Page>
    var baseCharacters: nat
    var residentCharacters: nat
    var requestCount: nat
    var pageCount: nat
    var requestedKeys: seq<Key>
    var exhaustion: Option<Exhaustion>
    var ledger: seq<Entry>
    ghost var consultations: nat

    /** The accounts agree with the pages, and every bound of the budget is kept. */
    ghost predicate Valid()
      reads this
    {
      && residentCharacters == baseCharacters + Characters(pages) <= budget.maxTextCharacters
      && pageCount == |pages| <= budget.maxPageCount
      && requestedKeys == Keys(pages) && Distinct(pages)
      && consultations <= requestCount <= budget.maxPageRequests
      && |handles| <= budget.maxContextHandles && DistinctIds(handles)
      && Numbered(ledger) && ledger != []
    }

    /** The last entry of the ledger states the present totals. */
    predicate Reported()
      reads this
    {
      && ledger != []
      && var last := ledger[|ledger| - 1];
         last.after == residentCharacters && last.requestCount == requestCount && last.pageCount == pageCount
    }

    constructor (projectId: nat, revision: nat, budget: Budget, handles: seq<Handle>, resident: nat)
      requires resident <= budget.maxTextCharacters
      ensures Valid() && Reported() && pages == [] && requestCount == 0 && consultations == 0
      ensures this.projectId == projectId && this.revision == revision && this.budget == budget
      ensures this.handles == Bounded(Deduplicated(handles), budget.maxContextHandles)
      ensures baseCharacters == resident && |ledger| == 1
    {
      DeduplicatedIds(handles);
      this.projectId, this.revision, this.budget := projectId, revision, budget;
      this.handles := Bounded(Deduplicated(handles), budget.maxContextHandles);
      pages, baseCharacters, residentCharacters, requestCount, pageCount := [], resident, resident, 0, 0;
      requestedKeys, exhaustion, consultations := [], None, 0;
      ledger := [Entry(1, InitialSelection, 0, resident, 0, 0)];
    }

    method Note(what: EventType, before: nat)
      requires Numbered(ledger)
      modifies this`ledger
      ensures Numbered(ledger) && Reported() && |ledger| == |old(ledger)| + 1 && old(ledger) <= ledger
      ensures Types(ledger) == Types(old(ledger)) + [what] && ledger[|ledger| - 1].before == before
    {
      TypesAppend(ledger, Entry(|ledger| + 1, what, before, residentCharacters, requestCount, pageCount));
      ledger := ledger + [Entry(|ledger| + 1, what, before, residentCharacters, requestCount, pageCount)];
    }

    /** A handle of this project and revision that allows the operation asked for. */
    predicate Usable(key: Key)
      reads this
    {
      match Find(handles, key.handleId)
      case None => false
      case Some(h) => h.canonical && h.projectId == projectId && h.revision == revision && Matches(h, key.operation)
    }

    /** Whether the request uses up one of the mission's page requests. */
    predicate Counts(snapshot: nat, request: Option<Key>)
      reads this
    {
      requestCount < budget.maxPageRequests && (request.Some? ==> snapshot == revision)
    }

    /** Whether the request reaches the page source. */
    predicate Consults(snapshot: nat, key: Key)
      reads this
    {
      Counts(snapshot, Some(key)) && Usable(key) && (Lookup(pages, key).Some? || pageCount < budget.maxPageCount)
    }

    /** Whether the page still fits once it has taken the place of the one under its key. */
    predicate Fits(page: Page)
      reads this
    {
      residentCharacters - Size(Lookup(pages, page.key)) + |page.content| <= budget.maxTextCharacters
    }

    method IndexOf(key: Key) returns (index: int)
      ensures -1 <= index < |pages|
      ensures index < 0 ==> key !in Keys(pages)
      ensures index >= 0 ==> pages[index].key == key
    {
      index := 0;
      while index < |pages|
        invariant 0 <= index <= |pages|
        invariant forall i :: 0 <= i < index ==> pages[i].key != key
      {
        if pages[index].key == key { return; }
        index := index + 1;
      }
      index := -1;
    }

    /** The page is no longer what its source says: it leaves, with its characters and its key. */
    method Evict(index: nat)
      requires Valid() && index < |pages|
      modifies this`pages, this`pageCount, this`residentCharacters, this`requestedKeys, this`ledger
      ensures Valid() && Reported() && old(ledger) <= ledger
      ensures pages == Without(old(pages), old(pages[index].key)) && Lookup(pages, old(pages[index].key)) == None
      ensures |pages| == |old(pages)| - 1 && Types(ledger) == Types(old(ledger)) + [PageEvicted]
    {
      hide Types;
      hide Without, Lookup, Characters, Keys, Distinct;
      var page := pages[index];
      ghost var was := pages;
      SplitsAt(pages, index);
      Around(pages[..index], page, pages[index + 1..]);
      DropKeyOfKeys(pages, page.key);
      DistinctWithout(pages, index);
      pages := pages[..index] + pages[index + 1..];
      pageCount := pageCount - 1;
      residentCharacters := residentCharacters - |page.content|;
      requestedKeys := DropKey(requestedKeys, page.key);
      assert Lookup(pages, page.key) == None by {
        KeysOfConcat(was[..index], was[index + 1..]);
        AbsentKey(pages, page.key);
      }
      Note(PageEvicted, residentCharacters);
    }

    /** A revalidated page takes the place of the one it renews. */
    method Replace(index: nat, page: Page)
      requires Valid() && index < |pages| && pages[index].key == page.key && Fits(page)
      modifies this`pages, this`residentCharacters
      ensures Valid() && residentCharacters == old(residentCharacters) - |old(pages)[index].content| + |page.content|
      ensures Lookup(pages, page.key) == Some(page) && Without(pages, page.key) == Without(old(pages), page.key)
      ensures Keys(pages) == Keys(old(pages))
    {
      hide Without, Lookup, Characters, Keys, Distinct;
      Replaced(pages, index, page);
      residentCharacters := residentCharacters - |pages[index].content| + |page.content|;
      pages := pages[index := page];
    }

    method Append(page: Page)
      requires Valid() && page.key !in Keys(pages) && Fits(page) && pageCount < budget.maxPageCount
      modifies this`pages, this`residentCharacters, this`pageCount, this`requestedKeys
      ensures Valid() && residentCharacters == old(residentCharacters) + |page.content|
      ensures Lookup(pages, page.key) == Some(page) && Without(pages, page.key) == Without(old(pages), page.key)
      ensures pages == old(pages) + [page] && pageCount == old(pageCount) + 1
    {
      hide Without, Lookup, Characters, Keys, Distinct;
      Appended(pages, page);
      residentCharacters := residentCharacters + |page.content|;
      pages := pages + [page];
      pageCount := pageCount + 1;
      requestedKeys := requestedKeys + [page.key];
    }

    /** What the source gave becomes resident, unless it would exceed the character budget. */
    method Admit(index: int, page: Page) returns (status: Status)
      requires Valid() && -1 <= index < |pages|
      requires index >= 0 ==> pages[index].key == page.key
      requires index < 0 ==> page.key !in Keys(pages) && pageCount < budget.maxPageCount
      modifies this`pages, this`residentCharacters, this`pageCount, this`requestedKeys, this`handles, this`exhaustion,
               this`ledger
      ensures Valid() && Reported() && old(ledger) <= ledger
      ensures status == Exhausted <==> !old(Fits(page))
      ensures status == Exhausted ==>
              pages == old(pages) && handles == old(handles) && exhaustion == Some(ResidentCharacterBudget)
      ensures status != Exhausted ==> exhaustion == None && IsResident(old(pages), pages, page)
      ensures status != Exhausted ==>
              handles == Bounded(Deduplicated(old(handles) + page.related), budget.maxContextHandles)
      ensures status == Reused <==> old(Fits(page)) && index >= 0 && Unchanged(old(pages)[index], page)
      ensures status == Reused ==> residentCharacters == old(residentCharacters)
      ensures status != Rejected && Types(ledger) == Types(old(ledger)) + [Told(status, false)]
    {
      hide Types;
      hide Without, Lookup, Characters, Keys, Distinct, DistinctIds, Deduplicated, Numbered, Unchanged;
      UnderKey(index, page.key);
      var before := residentCharacters;
      var freed := if index >= 0 then |pages[index].content| else 0;
      if residentCharacters - freed + |page.content| > budget.maxTextCharacters {
        exhaustion := Some(ResidentCharacterBudget);
        Note(BudgetExhausted, residentCharacters);
        return Exhausted;
      }
      var same := index >= 0 && Unchanged(pages[index], page);
      if index >= 0 { Replace(index, page); } else { Append(page); }
      DeduplicatedIds(handles + page.related);
      BoundedIds(Deduplicated(handles + page.related), budget.maxContextHandles);
      handles := Bounded(Deduplicated(handles + page.related), budget.maxContextHandles);
      exhaustion := None;
      if same {
        UnchangedSize(old(pages)[index], page);
        Note(ContextReused, before);
        return Reused;
      }
      Note(PageResolved, before);
      return Resolved;
    }

    /**
     * Asks the source for the page. What it withholds is evicted, what it gives becomes resident or
     * exceeds the character budget; every other page keeps its content and its place.
     */
    method Consult(key: Key, handle: Handle, answer: Answer) returns (status: Status)
      requires Valid() && (Lookup(pages, key).Some? || pageCount < budget.maxPageCount) && consultations < requestCount
      modifies this`pages, this`residentCharacters, this`pageCount, this`requestedKeys, this`handles, this`exhaustion,
        this`ledger, this`consultations
      ensures Valid() && Reported() && old(ledger) <= ledger && consultations == old(consultations) + 1
      ensures !answer.Gives? ==>
                status == Rejected && pages == Without(old(pages), key) && Lookup(pages, key) == None &&
                    handles == old(handles)
      ensures answer.Gives? ==>
              Settled(old(pages), pages, Admitted(budget, key, handle, answer),
              old(Fits(Admitted(budget, key, handle, answer))), status)
      ensures status == Reused ==> residentCharacters == old(residentCharacters)
      ensures exhaustion == ExhaustionAfter(status, ResidentCharacterBudget, old(exhaustion))
      ensures Types(ledger) == Types(old(ledger)) + Consulted(old(Lookup(pages, key).Some?), answer, status)
    {
      hide Types;
      hide Without, Lookup, Characters, Keys, Distinct, DistinctIds, Deduplicated, Numbered, Unchanged, Admitted,
          IsResident;
      var index := IndexOf(key);
      UnderKey(index, key);
      if index >= 0 { Note(DuplicatePageRequest, residentCharacters); }
      consultations := consultations + 1;
      if !answer.Gives? {
        if index >= 0 { Evict(index); } else { AbsentKey(pages, key); }
        Note(if answer == Withholds(true) then StalePageRejected else PageRejected, residentCharacters);
        return Rejected;
      }
      var page := Admitted(budget, key, handle, answer);
      AdmittedKey(budget, key, handle, answer);
      status := Admit(index, page);
    }

    /** One request of the mission, with the answer its source would give if it were consulted. */
    method Expand(snapshot: nat, request: Option<Key>, answer: Answer) returns (status: Status)
      requires Valid()
      modifies this`pages, this`residentCharacters, this`pageCount, this`requestedKeys, this`handles, this`exhaustion,
        this`ledger, this`consultations, this`requestCount
      ensures Valid() && Reported() && old(ledger) <= ledger
      ensures requestCount == old(requestCount) + One(old(Counts(snapshot, request)))
      ensures var consulted := request.Some? && old(Consults(snapshot, request.value));
              && consultations == old(consultations) + One(consulted)
              && (!consulted ==>
                 pages == old(pages) && handles == old(handles) && (status == Rejected || status == Exhausted))
              && (consulted && !answer.Gives? ==>
                    status == Rejected && pages == Without(old(pages), request.value) &&
                        Lookup(pages, request.value) == None)
              && (consulted && answer.Gives? ==>
                    var page := Admitted(budget, request.value, Find(old(handles), request.value.handleId).value,
                        answer);
                    Settled(old(pages), pages, page, old(Fits(page)), status))
              && (!consulted ==>
                    (status == Exhausted <==>
                       ((request.None? || snapshot == revision) && old(requestCount) == budget.maxPageRequests)
                       || (request.Some? && old(Counts(snapshot, request)) && old(Usable(request.value)))))
      ensures status == Reused ==> residentCharacters == old(residentCharacters)
      ensures var counted, consulted :=
                old(Counts(snapshot, request)), request.Some? && old(Consults(snapshot, request.value));
              && exhaustion == ExhaustionAfter(status,
                   if !counted then PageRequestLimit
                   else if !consulted then PageCountLimit else ResidentCharacterBudget, old(exhaustion))
              && Types(ledger) == Types(old(ledger))
                   + (if counted && request.Some? then [PageRequested] else [])
                   + (if consulted then Consulted(old(Lookup(pages, request.value).Some?), answer, status)
                      else [Told(status, false)])
    {
      hide Types;
      hide Without, Lookup, Characters, Keys, Distinct, DistinctIds, Deduplicated, Numbered, Admitted, Settled, Find;
      if request.None? {
        if requestCount >= budget.maxPageRequests {
          exhaustion := Some(PageRequestLimit);
          Note(BudgetExhausted, residentCharacters);
          return Exhausted;
        }
        requestCount := requestCount + 1;
        Note(PageRejected, residentCharacters);
        return Rejected;
      }
      var key := request.value;
      var handle := Find(handles, key.handleId);
      if revision != snapshot {
        Note(PageRejected, residentCharacters);
        return Rejected;
      }
      if requestCount >= budget.maxPageRequests {
        exhaustion := Some(PageRequestLimit);
        Note(BudgetExhausted, residentCharacters);
        return Exhausted;
      }
      requestCount := requestCount + 1;
      Note(PageRequested, residentCharacters);
      if handle.None? || !handle.value.canonical || handle.value.projectId != projectId
         || handle.value.revision != revision || !Matches(handle.value, key.operation) {
        Note(PageRejected, residentCharacters);
        return Rejected;
      }
      var index := IndexOf(key);
      UnderKey(index, key);
      if index < 0 && pageCount >= budget.maxPageCount {
        exhaustion := Some(PageCountLimit);
        Note(BudgetExhausted, residentCharacters);
        return Exhausted;
      }
      status := Consult(key, handle.value, answer);
    }

    /**
     * Moves the pages onto another initial selection of the same project and revision. All bounds of
     * the new budget are kept exactly when its request and page limits already held: only the
     * character budget evicts.
     */
    method Rebase(projectId: nat, revision: nat, next: Budget, initial: seq<Handle>, base: nat) returns (bound: bool)
      requires Valid() && base <= next.maxTextCharacters
      modifies this`budget, this`handles, this`pages, this`baseCharacters, this`residentCharacters, this`pageCount,
        this`requestedKeys, this`exhaustion, this`ledger
      ensures bound <==> projectId == this.projectId && revision == this.revision
      ensures !bound ==> Valid() && pages == old(pages) && budget == old(budget) && ledger == old(ledger)
      ensures bound ==>
        && budget == next && baseCharacters == base && old(ledger) <= ledger
        && pages == Kept(old(pages), base, next.maxTextCharacters)
        && handles == Bounded(Deduplicated(initial + old(handles)), next.maxContextHandles)
        && (Valid() <==> requestCount <= next.maxPageRequests && |pages| <= next.maxPageCount)
      ensures bound && next == old(budget) ==> Valid()
      ensures bound && next == old(budget) && base <= old(baseCharacters) ==>
              pages == old(pages) && ledger == old(ledger)
    {
      hide Without, Lookup, Characters, Distinct, DistinctIds, Deduplicated, Kept;
      if projectId != this.projectId || revision != this.revision { return false; }
      KeptFits(pages, base, next.maxTextCharacters);
      KeptDistinct(pages, base, next.maxTextCharacters);
      KeptAllIff(pages, base, next.maxTextCharacters);
      KeptCount(pages, base, next.maxTextCharacters);
      DeduplicatedIds(initial + handles);
      BoundedIds(Deduplicated(initial + handles), next.maxContextHandles);
      handles := Bounded(Deduplicated(initial + handles), next.maxContextHandles);
      var before, count := residentCharacters, |pages|;
      pages, residentCharacters := KeepFitting(base, next.maxTextCharacters);
      pageCount, requestedKeys := |pages|, Keys(pages);
      budget, baseCharacters, exhaustion := next, base, None;
      if |pages| < count { Note(PageEvicted, before); }
      return true;
    }

    /** The filter of the rebase, with its running count of resident characters. */
    method KeepFitting(base: nat, max: nat) returns (kept: seq<Page>, resident: nat)
      requires base <= max
      ensures kept == Kept(pages, base, max) && resident == base + Characters(kept)
    {
      hide Characters;
      kept, resident := [], base;
      assert base + Characters([]) == base by { Empty(); }
      var i := 0;
      while i < |pages|
        invariant 0 <= i <= |pages|
        invariant resident == base + Characters(kept)
        invariant kept + Kept(pages[i..], resident, max) == Kept(pages, base, max)
      {
        var page := pages[i];
        assert pages[i..][0] == page && pages[i..][1..] == pages[i + 1..];
        if resident + |page.content| <= max {
          CharactersOfConcat(kept, [page]);
          Single(page, page.key);
          assert kept + ([page] + Kept(pages[i + 1..], resident + |page.content|, max))
              == (kept + [page]) + Kept(pages[i + 1..], resident + |page.content|, max);
          kept := kept + [page];
          resident := resident + |page.content|;
        }
        i := i + 1;
      }
      assert kept + [] == kept;
    }

    lemma UnderKey(index: int, key: Key)
      requires Distinct(pages) && -1 <= index < |pages|
      requires index >= 0 ==> pages[index].key == key
      requires index < 0 ==> key !in Keys(pages)
      ensures Lookup(pages, key) == (if index < 0 then None else Some(pages[index]))
    {
      if index < 0 {
        AbsentKey(pages, key);
      } else {
        SplitsAt(pages, index);
        Around(pages[..index], pages[index], pages[index + 1..]);
      }
    }
  }

  /** The page is the one under its key; the others are as they were, and keys keep their order. */
  predicate IsResident(before: seq<Page>, after: seq<Page>, page: Page) {
    && Lookup(after, page.key) == Some(page)
    && Without(after, page.key) == Without(before, page.key)
    && Keys(after) == if Lookup(before, page.key).Some? then Keys(before) else Keys(before) + [page.key]
  }

  lemma {:induction false} Replaced(pages: seq<Page>, index: nat, page: Page)
    requires index < |pages| && Distinct(pages) && pages[index].key == page.key
    ensures var after := pages[index := page];
            && Distinct(after) && Keys(after) == Keys(pages)
            && Lookup(after, page.key) == Some(page) && Lookup(pages, page.key) == Some(pages[index])
            && Without(after, page.key) == Without(pages, page.key)
            && Characters(after) == Characters(pages) - |pages[index].content| + |page.content|
            && |pages[index].content| <= Characters(pages)
  {
    hide Without, Lookup, Characters, Keys;
    SplitsAt(pages, index);
    Around(pages[..index], pages[index], pages[index + 1..]);
    Around(pages[..index], page, pages[index + 1..]);
    assert pages[index := page] == pages[..index] + [page] + pages[index + 1..];
    assert Keys(pages[index := page]) == Keys(pages);
  }

  /** How a page given by the source was settled. */
  predicate Settled(before: seq<Page>, after: seq<Page>, page: Page, fits: bool, status: Status) {
    if !fits then status == Exhausted && after == before
    else
      && IsResident(before, after, page)
      && status == (match Lookup(before, page.key)
                    case Some(was) => if Unchanged(was, page) then Reused else Resolved
                    case None => Resolved)
  }

  lemma AdmittedKey(budget: Budget, key: Key, handle: Handle, answer: Answer)
    requires answer.Gives?
    ensures Admitted(budget, key, handle, answer).key == key
  {
  }

  lemma Empty()
    ensures Characters([]) == 0
  {
  }

  lemma UnchangedSize(was: Page, now: Page)
    requires Unchanged(was, now)
    ensures |was.content| == |now.content|
  {
  }

  lemma BoundedIds(handles: seq<Handle>, max: nat)
    requires DistinctIds(handles)
    ensures DistinctIds(Bounded(handles, max))
  {
  }

  lemma {:induction false} Appended(pages: seq<Page>, page: Page)
    requires Distinct(pages) && page.key !in Keys(pages)
    ensures var after := pages + [page];
            && Distinct(after) && Keys(after) == Keys(pages) + [page.key]
            && Lookup(after, page.key) == Some(page) && Lookup(pages, page.key) == None
            && Without(after, page.key) == Without(pages, page.key)
            && Characters(after) == Characters(pages) + |page.content|
  {
    hide Without, Lookup, Characters;
    NewKey(pages, page);
    AbsentKey(pages, page.key);
    Single(page, page.key);
    WithoutConcat(pages, [page], page.key);
    CharactersOfConcat(pages, [page]);
    LookupEnd(pages, page);
  }

  lemma {:induction false} NewKey(pages: seq<Page>, page: Page)
    requires page.key !in Keys(pages) && Distinct(pages)
    ensures Keys(pages + [page]) == Keys(pages) + [page.key] && Distinct(pages + [page])
  {
    assert forall i :: 0 <= i < |pages| ==> Keys(pages)[i] == pages[i].key;
    assert (pages + [page])[..|pages|] == pages;
  }

  lemma {:induction false} DistinctWithout(pages: seq<Page>, index: nat)
    requires index < |pages| && Distinct(pages)
    ensures Distinct(pages[..index] + pages[index + 1..])
  {
  }
}
