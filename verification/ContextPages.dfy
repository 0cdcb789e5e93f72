/** The pages of a working set: handles, request keys, clipping, and pages as a list with distinct keys. */
module ContextPages {
  import opened Wrappers

  datatype HandleKind = File | Symbol | Module | Repository | Knowledge | Evidence

  /** `canonical` says that the identifier is the digest of the rest. */
  datatype Handle = Handle(id: nat, projectId: nat, revision: nat, kind: HandleKind, canonical: bool)

  datatype Operation =
    | FileSlice | SymbolSlice | ModuleRelationships | FindSymbol | FindDefinition
    | FindReferences | FindImplementations | KnowledgeRecord | EvidenceReferences

  /** The digested part of a request: all of it but the identifier. */
  datatype Key = Key(handleId: nat, operation: Operation, maxCharacters: Option<nat>, detail: nat)

  datatype Page = Page(key: Key, handle: Handle, content: string, related: seq<Handle>, source: nat, truncated: bool)

  predicate Matches(h: Handle, op: Operation) {
    match op
    case FileSlice => h.kind == File
    case SymbolSlice => h.kind == Symbol
    case ModuleRelationships => h.kind == Module
    case FindSymbol => h.kind == Repository
    case FindDefinition => h.kind == Symbol
    case FindReferences => h.kind == Symbol
    case FindImplementations => h.kind == Symbol
    case KnowledgeRecord => h.kind == Knowledge || h.kind == Evidence
    case EvidenceReferences => h.kind == Knowledge
  }

  /** The operations a handle of each kind can be asked for. */
  function OperationsOn(kind: HandleKind): set<Operation> {
    match kind
    case File => {FileSlice}
    case Symbol => {SymbolSlice, FindDefinition, FindReferences, FindImplementations}
    case Module => {ModuleRelationships}
    case Repository => {FindSymbol}
    case Knowledge => {KnowledgeRecord, EvidenceReferences}
    case Evidence => {KnowledgeRecord}
  }

  lemma MatchesIff(h: Handle, op: Operation)
    ensures Matches(h, op) <==> op in OperationsOn(h.kind)
  {
  }

  // ------------------------------------------------------------------------------ clipping

  const MARKER := "\n[Context page clipped: page character budget reached.]"

  function Clip(content: string, max: nat): string {
    if |content| <= max then content
    else content[..if max < |MARKER| then 0 else max - |MARKER|] + MARKER
  }

  /** Whether the content is cut, even if what results happens to be the content again. */
  predicate Clipped(content: string, max: nat) {
    !(|content| <= max)
  }

  /** A clipped page keeps its limit exactly when it needs no clipping or the marker fits in the limit. */
  lemma {:induction false} ClipKeepsLimitIff(content: string, max: nat)
    ensures |Clip(content, max)| <= max <==> |content| <= max || |MARKER| <= max
    ensures |Clip(content, max)| <= max || |Clip(content, max)| == |MARKER|
    ensures Clip(content, max) == content || Clip(content, max)[|Clip(content, max)| - |MARKER|..] == MARKER
  {
    if |content| > max {
      var cut := if max < |MARKER| then 0 else max - |MARKER|;
      assert (content[..cut] + MARKER)[cut..] == MARKER;
    }
  }

  /** What is kept before the marker is the beginning of the content, as long as fits. */
  lemma ClipKeepsPrefix(content: string, max: nat)
    ensures |content| <= max ==> Clip(content, max) == content
    ensures |content| > max ==>
      exists kept: string :: Clip(content, max) == kept + MARKER && LongestKept(kept, content, max)
  {
    if |content| > max {
      var kept := content[..if max < |MARKER| then 0 else max - |MARKER|];
      assert Clip(content, max) == kept + MARKER && LongestKept(kept, content, max);
    }
  }

  /** A beginning of the content that fills the limit together with the marker, or nothing where none can. */
  predicate LongestKept(kept: string, content: string, max: nat) {
    && kept <= content
    && (|MARKER| <= max ==> |kept| + |MARKER| == max)
    && (max < |MARKER| ==> kept == "")
  }

  // ------------------------------------------------------------------ pages as a keyed list

  function Characters(pages: seq<Page>): nat {
    if pages == [] then 0 else Characters(pages[..|pages| - 1]) + |pages[|pages| - 1].content|
  }

  function Keys(pages: seq<Page>): (keys: seq<Key>)
    ensures |keys| == |pages| && forall i :: 0 <= i < |pages| ==> keys[i] == pages[i].key
  {
    if pages == [] then [] else Keys(pages[..|pages| - 1]) + [pages[|pages| - 1].key]
  }

  /** No two pages have the same key. */
  predicate Distinct(pages: seq<Page>) {
    forall i, j :: 0 <= i < j < |pages| ==> pages[i].key != pages[j].key
  }

  /** The other pages, in their order. */
  function Without(pages: seq<Page>, key: Key): seq<Page> {
    if pages == [] then []
    else
      var last := pages[|pages| - 1];
      Without(pages[..|pages| - 1], key) + (if last.key == key then [] else [last])
  }

  function Lookup(pages: seq<Page>, key: Key): Option<Page> {
    if pages == [] then None
    else if pages[|pages| - 1].key == key then Some(pages[|pages| - 1])
    else Lookup(pages[..|pages| - 1], key)
  }

  lemma {:induction false} CharactersOfConcat(a: seq<Page>, b: seq<Page>)
    ensures Characters(a + b) == Characters(a) + Characters(b)
  {
    if b == [] {
      assert a + b == a;
    } else {
      assert (a + b)[..|a + b| - 1] == a + b[..|b| - 1];
      CharactersOfConcat(a, b[..|b| - 1]);
    }
  }

  lemma {:induction false} WithoutConcat(a: seq<Page>, b: seq<Page>, key: Key)
    ensures Without(a + b, key) == Without(a, key) + Without(b, key)
  {
    if b == [] {
      assert a + b == a;
    } else {
      assert (a + b)[..|a + b| - 1] == a + b[..|b| - 1];
      WithoutConcat(a, b[..|b| - 1], key);
    }
  }

  /** Equal without one key: the same pages under all the others. */
  lemma {:induction false} OthersKept(a: seq<Page>, b: seq<Page>, key: Key, other: Key)
    requires Without(a, key) == Without(b, key) && other != key
    ensures Lookup(a, other) == Lookup(b, other)
  {
    LookupWithout(a, key, other);
    LookupWithout(b, key, other);
  }

  lemma {:induction false} LookupWithout(pages: seq<Page>, key: Key, other: Key)
    requires other != key
    ensures Lookup(Without(pages, key), other) == Lookup(pages, other)
  {
    if pages != [] {
      var init, last := pages[..|pages| - 1], pages[|pages| - 1];
      LookupWithout(init, key, other);
      var rest := Without(init, key);
      if last.key == key {
        assert Without(pages, key) == rest;
      } else {
        assert (rest + [last])[..|rest|] == rest;
      }
    }
  }

  lemma {:induction false} AbsentKey(pages: seq<Page>, key: Key)
    requires key !in Keys(pages)
    ensures Without(pages, key) == pages && Lookup(pages, key) == None
  {
    if pages != [] {
      var init := pages[..|pages| - 1];
      assert Keys(pages)[|pages| - 1] == pages[|pages| - 1].key;
      forall k | k in Keys(init) ensures k in Keys(pages) {
        var i :| 0 <= i < |init| && Keys(init)[i] == k;
        assert Keys(pages)[i] == k;
      }
      AbsentKey(init, key);
      assert init + [pages[|pages| - 1]] == pages;
    }
  }

  lemma {:induction false} LookupConcat(a: seq<Page>, b: seq<Page>, key: Key)
    requires key !in Keys(b)
    ensures Lookup(a + b, key) == Lookup(a, key)
  {
    if b == [] {
      assert a + b == a;
    } else {
      var init := b[..|b| - 1];
      assert Keys(b)[|b| - 1] == b[|b| - 1].key;
      forall k | k in Keys(init) ensures k in Keys(b) {
        var i :| 0 <= i < |init| && Keys(init)[i] == k;
        assert Keys(b)[i] == k;
      }
      assert (a + b)[..|a + b| - 1] == a + init;
      LookupConcat(a, init, key);
    }
  }

  lemma Single(page: Page, key: Key)
    ensures Without([page], key) == (if page.key == key then [] else [page])
    ensures Lookup([page], key) == (if page.key == key then Some(page) else None)
    ensures Characters([page]) == |page.content|
  {
    assert [page][..0] == [];
  }

  lemma {:induction false} LookupEnd(a: seq<Page>, page: Page)
    ensures Lookup(a + [page], page.key) == Some(page)
  {
  }

  /** Around the one page held under a key. */
  lemma Around(a: seq<Page>, page: Page, b: seq<Page>)
    requires page.key !in Keys(a) && page.key !in Keys(b)
    ensures Without(a + [page] + b, page.key) == a + b
    ensures Lookup(a + [page] + b, page.key) == Some(page)
    ensures Characters(a + [page] + b) == Characters(a + b) + |page.content|
  {
    hide Without, Lookup, Characters, Keys;
    AbsentKey(a, page.key);
    AbsentKey(b, page.key);
    Single(page, page.key);
    WithoutConcat(a + [page], b, page.key);
    WithoutConcat(a, [page], page.key);
    CharactersOfConcat(a + [page], b);
    CharactersOfConcat(a, [page]);
    CharactersOfConcat(a, b);
    LookupEnd(a, page);
    LookupConcat(a + [page], b, page.key);
    assert a + [] + b == a + b;
  }

  lemma {:induction false} KeysOfConcat(a: seq<Page>, b: seq<Page>)
    ensures Keys(a + b) == Keys(a) + Keys(b)
  {
  }

  lemma {:induction false} SplitsAt(pages: seq<Page>, i: nat)
    requires i < |pages| && Distinct(pages)
    ensures pages == pages[..i] + [pages[i]] + pages[i + 1..]
    ensures pages[i].key !in Keys(pages[..i]) && pages[i].key !in Keys(pages[i + 1..])
  {
  }
}
