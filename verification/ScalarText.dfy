/**
 * The whole way from text to purity: a rich expression written in any layout, if its text is
 * tokenized and recognized, contains nothing that could have an effect.
 */
module ScalarText {
  import opened Wrappers
  import opened ScalarGrammar
  import opened QuotedRegions
  import opened ScalarPurity
  import opened ScalarTokenizer
  import opened ScalarRecognizer
  import opened ScalarLayout

  function Trim(value: string): string {
    if value == "" then ""
    else if IsSpace(value[0]) then Trim(value[1..])
    else if IsSpace(value[|value| - 1]) then Trim(value[..|value| - 1])
    else value
  }

  predicate ProvenEffectFree(expression: string) {
    var trimmed := Trim(expression);
    var tokens := Tokenize(trimmed);
    trimmed != "" && tokens.Some? && tokens.value != [] && Accepts(tokens.value)
  }

  method IsProvenEffectFreeScalarExpression(expression: string) returns (proven: bool)
    ensures proven <==> ProvenEffectFree(expression)
  {
    var trimmed := Trim(expression);
    if trimmed == "" {
      return false;
    }
    var tokens := TokenizeScalarExpression(trimmed);
    if tokens.None? || tokens.value == [] {
      return false;
    }
    proven := ParseEffectFreeScalar(tokens.value);
  }

  // ----- white space at the ends -----

  lemma {:induction false} TrimStart(gap: string, v: string)
    requires Blank(gap)
    ensures Trim(gap + v) == Trim(v)
    decreases gap
  {
    hide IsSpace;
    if gap == "" {
      assert gap + v == v;
    } else {
      assert (gap + v)[1..] == gap[1..] + v;
      TrimStart(gap[1..], v);
    }
  }

  lemma {:induction false} TrimEnd(v: string, gap: string)
    requires Blank(gap) && v != "" && !IsSpace(v[0]) && !IsSpace(v[|v| - 1])
    ensures Trim(v + gap) == v
    decreases gap
  {
    hide IsSpace;
    if gap == "" {
      assert v + gap == v;
    } else {
      var most := gap[..|gap| - 1];
      assert (v + gap)[|v + gap| - 1] == gap[|gap| - 1];
      assert (v + gap)[..|v + gap| - 1] == v + most;
      TrimEnd(v, most);
    }
  }

  /** The layout without the white space at the two ends. */
  ghost function Bare(gaps: seq<string>): seq<string>
    requires |gaps| >= 2
  {
    gaps[0 := ""][|gaps| - 1 := ""]
  }

  lemma {:induction false} ShowLast(ls: seq<Lexeme>, gaps: seq<string>)
    requires ls != [] && |gaps| == |ls| + 1 && AllWritten(ls)
    ensures var core := Show(ls, gaps[|ls| := ""]);
            Show(ls, gaps) == core + gaps[|ls|] && core != "" && !IsSpace(core[|core| - 1])
    decreases |ls|
  {
    hide Written, IsSpace;
    var n := |ls|;
    WrittenEnds(ls[0]);
    var rest, after := ls[1..], gaps[1..];
    var whole, core := Show(rest, after), Show(rest, after[n - 1 := ""]);
    assert gaps[n := ""][1..] == after[n - 1 := ""];
    assert gaps[n := ""][0] == gaps[0];
    if n > 1 {
      assert forall i :: 0 <= i < |rest| ==> rest[i] == ls[i + 1];
      ShowLast(rest, after);
    }
    assert whole == core + gaps[n];
    Reassociate(gaps[0], ls[0].text, core, gaps[n]);
  }

  lemma Reassociate(gap: string, text: string, core: string, end: string)
    ensures gap + (text + (core + end)) == gap + (text + core) + end
  {
  }

  lemma WrittenEnds(l: Lexeme)
    requires Written(l)
    ensures |l.text| > 0 && !IsSpace(l.text[0]) && !IsSpace(l.text[|l.text| - 1])
  {
  }

  lemma BareLayout(ls: seq<Lexeme>, gaps: seq<string>)
    requires ls != [] && Layout(ls, gaps)
    ensures Layout(ls, Bare(gaps))
  {
    hide IsSpace, Fuse;
  }

  lemma BareMerges(ls: seq<Lexeme>, gaps: seq<string>)
    requires ls != [] && |gaps| == |ls| + 1
    ensures NoMerge(ls, Bare(gaps)) <==> NoMerge(ls, gaps)
  {
    hide Merge;
    assert forall i :: 0 < i < |ls| ==> Bare(gaps)[i] == gaps[i];
  }

  lemma ShowFirst(ls: seq<Lexeme>, gaps: seq<string>)
    requires ls != [] && |gaps| == |ls| + 1 && AllWritten(ls)
    ensures var text := Show(ls, gaps[0 := ""]);
            Show(ls, gaps) == gaps[0] + text && text != "" && !IsSpace(text[0])
  {
    hide Written, IsSpace;
    WrittenEnds(ls[0]);
    assert gaps[0 := ""][1..] == gaps[1..];
    var tail := ls[0].text + Show(ls[1..], gaps[1..]);
    assert "" + tail == tail && tail[0] == ls[0].text[0];
  }

  lemma TrimmedText(ls: seq<Lexeme>, gaps: seq<string>)
    requires ls != [] && Layout(ls, gaps) && AllWritten(ls)
    ensures Trim(Show(ls, gaps)) == Show(ls, Bare(gaps)) != ""
  {
    hide AllWritten, IsSpace, Fuse, Show;
    var front, last := gaps[0 := ""], gaps[|ls| := ""];
    assert Blank(gaps[0]) && Blank(gaps[|ls|]);
    ShowFirst(ls, gaps);
    ShowFirst(ls, last);
    TrimStart(gaps[0], Show(ls, front));
    ShowLast(ls, front);
    assert Bare(gaps) == front[|ls| := ""] == last[0 := ""];
    TrimEnd(Show(ls, Bare(gaps)), gaps[|ls|]);
  }

  // ----- runs stop where the lexeme does -----

  lemma {:induction false} DigitRunStops(t: string, v: string)
    requires WordEnds(v)
    ensures DigitRun(t + v) == DigitRun(t)
    decreases t
  {
    if |t| >= 1 && IsDigit(t[0]) {
      assert (t + v)[1..] == t[1..] + v;
      DigitRunStops(t[1..], v);
    } else if |t| >= 2 && t[0] == '_' && IsDigit(t[1]) {
      assert (t + v)[2..] == t[2..] + v;
      DigitRunStops(t[2..], v);
    }
  }

  lemma {:induction false} HexRunStops(t: string, v: string)
    requires WordEnds(v)
    ensures HexRun(t + v) == HexRun(t)
    decreases t
  {
    if |t| >= 1 && IsHex(t[0]) {
      assert (t + v)[1..] == t[1..] + v;
      HexRunStops(t[1..], v);
    } else if |t| >= 2 && t[0] == '_' && IsHex(t[1]) {
      assert (t + v)[2..] == t[2..] + v;
      HexRunStops(t[2..], v);
    }
  }

  lemma {:induction false} PlainDigitRunStops(t: string, v: string)
    requires WordEnds(v)
    ensures PlainDigitRun(t + v) == PlainDigitRun(t)
    decreases t
  {
    if |t| >= 1 && IsDigit(t[0]) {
      assert (t + v)[1..] == t[1..] + v;
      PlainDigitRunStops(t[1..], v);
    }
  }

  lemma FractionRunStops(t: string, v: string)
    requires NumberEnds(v)
    ensures FractionRun(t + v) == FractionRun(t)
  {
    if |t| >= 1 {
      assert (t + v)[1..] == t[1..] + v;
      DigitRunStops(t[1..], v);
    }
  }

  /** A lone exponent letter would take digits from `v`; a number never ends in one. */
  lemma ExponentRunStops(t: string, v: string)
    requires WordEnds(v) && t != "e" && t != "E"
    ensures ExponentRun(t + v) == ExponentRun(t)
  {
    if |t| >= 1 {
      assert (t + v)[1..] == t[1..] + v;
      PlainDigitRunStops(t[1..], v);
    }
    if |t| >= 2 {
      assert (t + v)[2..] == t[2..] + v;
      PlainDigitRunStops(t[2..], v);
    }
  }

  lemma DecimalRunStops(t: string, v: string)
    requires NumberEnds(v) && |t| > 0 && IsDigit(t[0])
    requires DecimalRun(t) == |t| || t[|t| - 1] !in {'e', 'E'}
    ensures DecimalRun(t + v) == DecimalRun(t)
  {
    hide DigitRun, FractionRun, WordEnds;
    assert (t + v)[1..] == t[1..] + v;
    DigitRunStops(t[1..], v);
    var d := 1 + DigitRun(t[1..]);
    assert (t + v)[d..] == t[d..] + v;
    FractionRunStops(t[d..], v);
    var f := d + FractionRun(t[d..]);
    assert (t + v)[f..] == t[f..] + v;
    assert |t[f..]| == 1 ==> t[f..][0] == t[|t| - 1] && ExponentRun(t[f..]) == 0;
    ExponentRunStops(t[f..], v);
  }

  lemma RadixStops(t: string, v: string)
    requires WordEnds(v) && |t| > 0
    ensures RadixNumber(t + v) <==> RadixNumber(t)
  {
  }

  lemma NumberRunStops(t: string, v: string)
    requires NumText(t) && NumberEnds(v)
    ensures NumberRun(t + v) == |t|
  {
    hide HexRun, DecimalRun, IsDigit, RadixNumber, WordEnds, SuffixRun;
    RadixStops(t, v);
    var n := if RadixNumber(t) then 2 + HexRun(t[2..]) else DecimalRun(t);
    SuffixStops(t[n..], v);
    if RadixNumber(t) {
      RadixLength(t);
      assert (t + v)[2..] == t[2..] + v;
      HexRunStops(t[2..], v);
    } else {
      SuffixShape(t, n);
      DecimalRunStops(t, v);
    }
    assert (t + v)[n..] == t[n..] + v;
  }

  lemma RadixLength(t: string)
    requires RadixNumber(t)
    ensures |t| >= 2
  {
  }

  lemma SuffixStops(t: string, v: string)
    requires WordEnds(v)
    ensures SuffixRun(t + v) == SuffixRun(t)
  {
  }

  lemma SuffixShape(t: string, n: nat)
    requires n <= |t| && n + SuffixRun(t[n..]) == |t|
    ensures n == |t| || t[|t| - 1] in {'n', 'N'}
  {
  }

  lemma {:induction false} WordRunStops(t: string, v: string)
    requires WordEnds(v) && forall i :: 0 <= i < |t| ==> IsWordChar(t[i])
    ensures WordRun(t + v) == |t|
    decreases t
  {
    if t != "" {
      assert (t + v)[1..] == t[1..] + v;
      WordRunStops(t[1..], v);
    } else {
      assert t + v == v;
    }
  }

  // ----- punctuation -----

  /** The longest match is the mark itself, or the text is rejected as an assignment or update. */
  lemma VocabularyFound(t: string, v: string)
    requires t in SCALAR_PUNCTUATION && MarkEnds(t, v)
    ensures EqualsFamily(t + v) ==> FindComparison(t + v) in {None, Some(t)}
    ensures !EqualsFamily(t + v) ==> FindPunctuation(t + v) == Some(t)
  {
  }

  // ----- scanning over one lexeme -----

  /** The scanner stands outside any quote at `p`, everything it has recorded lies before `p`. */
  ghost predicate Standing(s: string, p: nat, st: Scan) {
    && p <= |s|
    && st.quote == NoQuote && !st.escaped
    && ScanFrom(s, 0, START) == ScanFrom(s, p, st)
    && (forall i :: 0 <= i < |st.regions| ==> st.regions[i].end <= p)
    && ScanInv(s, p, st)
  }

  predicate QuoteFree(t: string) {
    forall i :: 0 <= i < |t| ==> !IsQuote(t[i])
  }

  lemma {:induction false} PassPlain(s: string, p: nat, n: nat, st: Scan)
    requires Standing(s, p, st) && p + n <= |s| && forall k :: p <= k < p + n ==> !IsQuote(s[k])
    ensures Standing(s, p + n, st)
    decreases n
  {
    hide ScanInv;
    if n > 0 {
      StepKeepsInv(s, p, st);
      PassPlain(s, p + 1, n - 1, st);
    }
  }

  lemma {:induction false} PassContent(s: string, p: nat, t: string, i: nat, st: Scan)
    requires p + |t| <= |s| && s[p..p + |t|] == t && 1 <= i <= |t|
    requires st.quote.Single? && ClosesLast(t, i, st.escaped, st.quote.mark) && st.quoteStart <= p + i
    ensures st.quoteStart <= p + |t| - 1
    ensures ScanFrom(s, p + i, st) == ScanFrom(s, p + |t|, Close(s, st.(escaped := false), p + |t| - 1, 1))
    decreases |t| - i
  {
    hide Close;
    assert s[p + i] == t[i];
    var next := Step(s, p + i, st);
    if !st.escaped && t[i] != '\\' && t[i] == st.quote.mark {
      assert next.1 == Close(s, st, p + i, 1) && st == st.(escaped := false);
    } else {
      PassContent(s, p, t, i + 1, next.1);
      assert next.1.(escaped := false) == st.(escaped := false);
    }
  }

  lemma Inside(s: string, p: nat, t: string)
    requires p + |t| <= |s| && s[p..p + |t|] == t && |t| >= 2
    ensures s[p + 1..p + |t| - 1] == t[1..|t| - 1]
  {
    var inner, content := s[p + 1..p + |t| - 1], t[1..|t| - 1];
    forall i | 0 <= i < |inner|
      ensures inner[i] == content[i]
    {
      assert s[p..p + |t|][i + 1] == t[i + 1];
    }
  }

  /** A string literal adds exactly its own region. */
  lemma PassString(s: string, p: nat, t: string, st: Scan) returns (st': Scan)
    requires Standing(s, p, st) && p + |t| <= |s| && s[p..p + |t|] == t && StrText(t)
    requires Boundary(s, p) && (p + |t| == |s| || !IsQuote(s[p + |t|]))
    ensures Standing(s, p + |t|, st')
    ensures |st'.regions| == |st.regions| + 1 && st'.regions[..|st.regions|] == st.regions
    ensures st'.regions[|st.regions|].start == p && st'.regions[|st.regions|].end == p + |t|
    ensures st'.regions[|st.regions|].interpolating <==> !NoMarker(t[1..|t| - 1])
  {
    hide ScanInv;
    Inside(s, p, t);
    assert s[p] == t[0] && s[p + 1] == t[1];
    assert !TripleAt(s, p, t[0]);
    assert PrefixStart(s, p) == p;
    var next := Step(s, p, st);
    var st1 := st.(quote := Quote.Single(t[0]), prefix := s[p..p], regionStart := p, quoteStart := p + 1);
    assert next == (p + 1, st1);
    PassContent(s, p, t, 1, st1);
    st' := Close(s, st1.(escaped := false), p + |t| - 1, 1);
    assert ScanFrom(s, p, st) == ScanFrom(s, p + |t|, st');
    PassStringInv(s, p, t, st);
  }

  lemma PassStringInv(s: string, p: nat, t: string, st: Scan)
    requires ScanInv(s, p, st) && st.quote == NoQuote && !st.escaped
    requires p + |t| <= |s| && s[p..p + |t|] == t && StrText(t)
    requires Boundary(s, p)
    ensures var st1 := st.(quote := Quote.Single(t[0]), prefix := s[p..p], regionStart := p, quoteStart := p + 1);
      ScanInv(s, p + |t|, Close(s, st1, p + |t| - 1, 1))
  {
    hide Ordered, InSome;
    var st1 := st.(quote := Quote.Single(t[0]), prefix := s[p..p], regionStart := p, quoteStart := p + 1);
    assert s[p] == t[0];
    CloseEnds(t, 1, false, t[0]);
    assert s[p + |t| - 1] == t[|t| - 1];
    assert ScanInv(s, p + |t| - 1, st1);
    CloseKeepsInv(s, p + |t| - 1, st1, 1);
  }

  lemma {:induction false} CloseEnds(t: string, i: nat, escaped: bool, mark: char)
    requires ClosesLast(t, i, escaped, mark)
    ensures i < |t| && t[|t| - 1] == mark
    decreases |t| - i
  {
    if escaped || t[i] == '\\' || t[i] != mark {
      CloseEnds(t, i + 1, !escaped && t[i] == '\\', mark);
    }
  }

  /** No prefix letters run across `p` into a quote at or after it. */
  predicate Boundary(s: string, p: nat)
    requires p <= |s|
  {
    p == 0 || p == |s| || !IsLetter(s[p - 1]) || (!IsLetter(s[p]) && !Mark(s[p]))
  }

  /** What the rest of the scan adds starts at `p` or later, once `p` is a boundary. */
  lemma {:induction false} LaterRegions(s: string, p: nat, index: nat, st: Scan, base: nat)
    requires p <= index <= |s| && Boundary(s, p)
    requires st.quote != NoQuote ==> p <= st.regionStart && st.quoteStart <= index
    requires base <= |st.regions| && forall i :: base <= i < |st.regions| ==> p <= st.regions[i].start
    ensures base <= |ScanFrom(s, index, st).regions|
    ensures ScanFrom(s, index, st).regions[..base] == st.regions[..base]
    ensures forall i :: base <= i < |ScanFrom(s, index, st).regions| ==> p <= ScanFrom(s, index, st).regions[i].start
    decreases |s| - index
  {
    hide Interpolates, TripleAt;
    if index < |s| {
      var next := Step(s, index, st);
      PrefixAfter(s, p, index);
      assert next.1.regions[..base] == st.regions[..base];
      LaterRegions(s, p, next.0, next.1, base);
    }
  }

  lemma PrefixAfter(s: string, p: nat, index: nat)
    requires p <= index < |s| && Boundary(s, p)
    ensures Mark(s[index]) ==> p <= PrefixStart(s, index)
  {
  }

  ghost function Ends(s: string): map<nat, nat> {
    EndsOf(Inspect(s).regions)
  }

  /** No string region begins inside a lexeme that holds no quote. */
  lemma NoEndInside(s: string, p: nat, n: nat, st: Scan, q: nat)
    requires Standing(s, p, st) && Standing(s, p + n, st) && p <= q < p + n
    requires Boundary(s, p + n)
    ensures q !in Ends(s)
  {
    hide Delimited, InSome, ScanFrom, IsQuote;
    var regions := Inspect(s).regions;
    LaterRegions(s, p + n, p + n, st, |st.regions|);
    EndsOfIn(regions, q);
    forall i | 0 <= i < |regions|
      ensures regions[i].start != q
    {
      if i < |st.regions| {
        assert regions[..|st.regions|][i] == st.regions[i];
      }
    }
  }

  lemma StringEnd(s: string, p: nat, n: nat, st: Scan, st': Scan)
    requires Standing(s, p, st) && Standing(s, p + n, st') && n > 0
    requires |st'.regions| == |st.regions| + 1 && st'.regions[..|st.regions|] == st.regions
    requires st'.regions[|st.regions|].start == p && st'.regions[|st.regions|].end == p + n
    requires Boundary(s, p + n)
    ensures p in Ends(s) && Ends(s)[p] == p + n
    ensures |Inspect(s).regions| > |st.regions| && Inspect(s).regions[|st.regions|] == st'.regions[|st.regions|]
  {
    hide Delimited, InSome, ScanFrom, IsQuote;
    var regions := Inspect(s).regions;
    var base := |st.regions|;
    LaterRegions(s, p + n, p + n, st', base + 1);
    EndsOfIn(regions, p);
    assert regions[..base + 1][base] == st'.regions[base];
    forall i | 0 <= i < |regions| && i != base
      ensures regions[i].start != p
    {
      if i < base {
        assert regions[..base + 1][i] == st'.regions[..base][i] == st.regions[i];
      }
    }
  }

  /** A region begins with a prefix letter or with its quote. */
  lemma RegionFirst(s: string, i: nat)
    requires i < |Inspect(s).regions|
    ensures var r := Inspect(s).regions[i];
      r.start < |s| && (IsLetter(s[r.start]) || IsQuote(s[r.start])) && (s[r.start] == '`' ==> r.interpolating)
  {
    hide Inspect, InSome, Interpolates;
    RegionsOrderedAndComplete(s);
    var r := Inspect(s).regions[i];
    assert Delimited(s, r);
    var prefix: nat, width: nat, mark: char :| DelimitedBy(s, r, prefix, width, mark);
  }

  lemma NoMarkEnd(s: string, p: nat)
    requires p < |s| && !IsLetter(s[p]) && !IsQuote(s[p])
    ensures p !in Ends(s)
  {
    hide Inspect;
    var regions := Inspect(s).regions;
    EndsOfIn(regions, p);
    forall i | 0 <= i < |regions|
      ensures regions[i].start != p
    {
      RegionFirst(s, i);
    }
  }

  /** A template makes the text unbalanced or expansion-capable. */
  lemma TemplateInterpolates(s: string, p: nat, st: Scan)
    requires Standing(s, p, st) && p < |s| && s[p] == '`' && Boundary(s, p)
    requires !Inspect(s).unbalanced
    ensures SomeInterpolates(Inspect(s).regions)
  {
    hide Delimited, ScanFrom, Ordered;
    var regions := Inspect(s).regions;
    RegionsOrderedAndComplete(s);
    var i :| 0 <= i < |regions| && regions[i].start <= p < regions[i].end;
    LaterRegions(s, p, p, st, |st.regions|);
    forall j | 0 <= j < |st.regions|
      ensures regions[j].end <= p
    {
      assert regions[..|st.regions|][j] == st.regions[j];
    }
    RegionFirst(s, i);
    assert regions[i].start == p;
  }

  // ----- one lexeme, one turn -----

  lemma NumTurn(s: string, ends: map<nat, nat>, p: nat, tokens: seq<Token>, t: string, v: string)
    requires EndsOk(s, ends) && p <= |s| && s[p..] == t + v && NumText(t) && NumberEnds(v) && p !in ends
    ensures TurnAt(s, ends, p, tokens) == Emit(Number, p + |t|)
  {
    hide NumberRun, IsWordStart;
    NumberRunStops(t, v);
    assert s[p] == t[0];
  }

  lemma WordTurn(s: string, ends: map<nat, nat>, p: nat, tokens: seq<Token>, t: string, v: string)
    requires EndsOk(s, ends) && p <= |s| && s[p..] == t + v && WordText(t) && WordEnds(v) && p !in ends
    ensures TurnAt(s, ends, p, tokens) == if t in NON_SCALAR_WORDS then Reject else Emit(Ident(t), p + |t|)
  {
    hide WordRun, NON_SCALAR_WORDS;
    WordRunStops(t, v);
    assert s[p] == t[0];
    assert (t + v)[..|t|] == t;
  }

  lemma VocabularyTurn(s: string, ends: map<nat, nat>, p: nat, tokens: seq<Token>, t: string, v: string)
    requires EndsOk(s, ends) && p <= |s| && s[p..] == t + v && t in SCALAR_PUNCTUATION && MarkEnds(t, v) && p !in ends
    ensures TurnAt(s, ends, p, tokens) in {Reject, Emit(Punct(t), p + |t|)}
  {
    hide SCALAR_PUNCTUATION, FindComparison, FindPunctuation, EqualsFamily, IsSpace, IsQuote, IsDigit, IsWordStart,
        AfterOperand;
    VocabularyFound(t, v);
    PunctTextStart(t);
    assert s[p] == t[0];
  }

  lemma EqualsTurn(s: string, ends: map<nat, nat>, p: nat, tokens: seq<Token>)
    requires EndsOk(s, ends) && p < |s| && s[p] == '=' && MarkEnds("=", s[p + 1..]) && p !in ends
    ensures TurnAt(s, ends, p, tokens) == Reject
  {
    assert s[p..] == ['='] + s[p + 1..];
  }

  /** The two-character operators whose assignment form is read as the operator and then `=`. */
  predicate Doubled(t: string) {
    t in {"**=", "<<=", ">>=", ">>>=", "&&=", "||=", "??="}
  }

  lemma DoubledTurn(s: string, ends: map<nat, nat>, p: nat, tokens: seq<Token>, t: string, v: string)
    requires EndsOk(s, ends) && p <= |s| && s[p..] == t + v && Doubled(t) && p !in ends
    ensures TurnAt(s, ends, p, tokens) == Emit(Punct(t[..|t| - 1]), p + |t| - 1)
  {
    hide IsSpace, IsQuote, IsDigit, IsWordStart;
    PunctTextStart(t);
    assert s[p] == t[0];
    assert "**="[..2] == "**" && "<<="[..2] == "<<" && ">>="[..2] == ">>" && ">>>="[..3] == ">>>";
    assert "&&="[..2] == "&&" && "||="[..2] == "||" && "??="[..2] == "??";
  }

  lemma BadTurn(s: string, ends: map<nat, nat>, p: nat, tokens: seq<Token>, t: string, v: string)
    requires EndsOk(s, ends) && p <= |s| && s[p..] == t + v && PunctText(t) && MarkEnds(t, v) && p !in ends
    requires t !in SCALAR_PUNCTUATION && !Doubled(t)
    ensures TurnAt(s, ends, p, tokens) == Reject
  {
    hide IsSpace, IsQuote, IsDigit, IsWordStart, SCALAR_PUNCTUATION;
    PunctTextStart(t);
    assert s[p] == t[0];
  }

  // ----- no quotes in numbers -----

  lemma {:induction false} RunsQuoteFree(u: string)
    ensures QuoteFree(u[..DigitRun(u)]) && QuoteFree(u[..HexRun(u)]) && QuoteFree(u[..PlainDigitRun(u)])
    decreases u
  {
    if |u| >= 1 {
      RunsQuoteFree(u[1..]);
      FirstThen(u, 1, DigitRun(u[1..]));
      FirstThen(u, 1, HexRun(u[1..]));
      FirstThen(u, 1, PlainDigitRun(u[1..]));
    }
    if |u| >= 2 {
      RunsQuoteFree(u[2..]);
      FirstThen(u, 2, DigitRun(u[2..]));
      FirstThen(u, 2, HexRun(u[2..]));
    }
  }

  lemma FirstThen(u: string, k: nat, n: nat)
    requires k + n <= |u|
    ensures QuoteFree(u[..k]) && QuoteFree(u[k..][..n]) ==> QuoteFree(u[..k + n])
  {
    if QuoteFree(u[..k]) && QuoteFree(u[k..][..n]) {
      var part := u[..k + n];
      forall i | 0 <= i < |part|
        ensures !IsQuote(part[i])
      {
        if i < k {
          assert u[..k][i] == u[i];
        } else {
          assert u[k..][..n][i - k] == u[i];
        }
      }
    }
  }

  lemma DecimalQuoteFree(u: string)
    requires |u| > 0 && IsDigit(u[0])
    ensures QuoteFree(u[..DecimalRun(u)])
  {
    hide DigitRun, PlainDigitRun;
    RunsQuoteFree(u[1..]);
    FirstThen(u, 1, DigitRun(u[1..]));
    var d := 1 + DigitRun(u[1..]);
    FractionQuoteFree(u[d..]);
    FirstThen(u, d, FractionRun(u[d..]));
    var f := d + FractionRun(u[d..]);
    ExponentQuoteFree(u[f..]);
    FirstThen(u, f, ExponentRun(u[f..]));
  }

  lemma FractionQuoteFree(u: string)
    ensures QuoteFree(u[..FractionRun(u)])
  {
    hide DigitRun;
    if |u| >= 1 {
      RunsQuoteFree(u[1..]);
      FirstThen(u, 1, DigitRun(u[1..]));
    }
  }

  lemma ExponentQuoteFree(u: string)
    ensures QuoteFree(u[..ExponentRun(u)])
  {
    hide PlainDigitRun;
    if |u| >= 1 {
      RunsQuoteFree(u[1..]);
      FirstThen(u, 1, PlainDigitRun(u[1..]));
    }
    if |u| >= 2 {
      RunsQuoteFree(u[2..]);
      FirstThen(u, 2, PlainDigitRun(u[2..]));
    }
  }

  lemma NumTextQuoteFree(t: string)
    requires NumText(t)
    ensures QuoteFree(t)
  {
    hide HexRun, DecimalRun;
    DecimalQuoteFree(t);
    if RadixNumber(t) {
      RunsQuoteFree(t[2..]);
      FirstThen(t, 2, HexRun(t[2..]));
    }
    var n := if RadixNumber(t) then 2 + HexRun(t[2..]) else DecimalRun(t);
    FirstThen(t, n, SuffixRun(t[n..]));
    assert t[..|t|] == t;
  }

  // ----- walking the text -----

  lemma PlainLexeme(l: Lexeme)
    requires Written(l) && (l.NumLex? || l.WordLex? || l.PunctLex?)
    ensures QuoteFree(l.text) && |l.text| > 0
  {
    match l
    case NumLex(t) => NumTextQuoteFree(t);
    case WordLex(t) =>
    case PunctLex(t) => PunctQuoteFree(t);
  }

  lemma PunctQuoteFree(t: string)
    requires PunctText(t)
    ensures QuoteFree(t) && |t| > 0
  {
  }

  /** One lexeme of accepted text is one token of the vocabulary, and the scanner is past it. */
  lemma PlainStep(s: string, p: nat, l: Lexeme, v: string, tokens: seq<Token>, st: Scan) returns (token: Token)
    requires Standing(s, p, st) && s[p..] == l.text + v && Stops(l, v) && Boundary(s, p + |l.text|)
    requires Written(l) && (l.NumLex? || l.WordLex? || l.PunctLex?)
    requires EndsOk(s, Ends(s)) && TokensFrom(s, Ends(s), p, tokens).Some?
    ensures Lex(l) == Some(token) && Standing(s, p + |l.text|, st)
    ensures TokensFrom(s, Ends(s), p, tokens) == TokensFrom(s, Ends(s), p + |l.text|, tokens + [token])
  {
    hide Standing, EndsOk, TurnAt, Written, NumText, WordText, PunctText, SCALAR_PUNCTUATION, NON_SCALAR_WORDS, Ends;
    var n := |l.text|;
    PlainLexeme(l);
    PassLexeme(s, p, l.text, v, st);
    match l
    case NumLex(t) =>
      NumWritten(l);
      NumTurn(s, Ends(s), p, tokens, t, v);
      token := Number;
    case WordLex(t) =>
      NumWritten(l);
      WordTurn(s, Ends(s), p, tokens, t, v);
      token := Ident(t);
    case PunctLex(t) =>
      NumWritten(l);
      PunctStep(s, p, t, v, tokens, st);
      VocabularyTurn(s, Ends(s), p, tokens, t, v);
      token := Punct(t);
  }

  lemma NumWritten(l: Lexeme)
    requires Written(l)
    ensures l.NumLex? ==> NumText(l.text)
    ensures l.WordLex? ==> WordText(l.text)
    ensures l.PunctLex? ==> PunctText(l.text)
    ensures l.StrLex? ==> StrText(l.text)
    ensures l.RegexLex? ==> |l.text| > 0 && l.text[0] == '/'
    ensures l.TemplateLex? ==> |l.text| > 0 && l.text[0] == '`'
  {
  }

  lemma PassLexeme(s: string, p: nat, t: string, v: string, st: Scan)
    requires Standing(s, p, st) && s[p..] == t + v && QuoteFree(t) && |t| > 0 && Boundary(s, p + |t|)
    ensures p + |t| <= |s| && s[p + |t|..] == v && Standing(s, p + |t|, st)
    ensures forall q :: p <= q < p + |t| ==> q !in Ends(s)
  {
    hide ScanInv, ScanFrom, IsQuote, Ends;
    forall k | p <= k < p + |t|
      ensures !IsQuote(s[k])
    {
      assert s[p..][k - p] == t[k - p];
    }
    PassPlain(s, p, |t|, st);
    assert s[p + |t|..] == s[p..][|t|..] == v;
    forall q | p <= q < p + |t|
      ensures q !in Ends(s)
    {
      NoEndInside(s, p, |t|, st, q);
    }
  }

  /** Punctuation in accepted text is of the vocabulary. */
  lemma PunctStep(s: string, p: nat, t: string, v: string, tokens: seq<Token>, st: Scan)
    requires p + |t| <= |s| && s[p..] == t + v && MarkEnds(t, v) && PunctText(t) && |t| > 0
    requires forall q :: p <= q < p + |t| ==> q !in Ends(s)
    requires EndsOk(s, Ends(s)) && TokensFrom(s, Ends(s), p, tokens).Some?
    ensures t in SCALAR_PUNCTUATION
  {
    hide EndsOk, TurnAt, PunctText, SCALAR_PUNCTUATION, Ends;
    if t !in SCALAR_PUNCTUATION {
      if Doubled(t) {
        DoubledTurn(s, Ends(s), p, tokens, t, v);
        var q := p + |t| - 1;
        assert s[q] == s[p..][|t| - 1] == '=';
        assert s[q + 1..] == s[p..][|t|..] == v;
        EqualsTurn(s, Ends(s), q, tokens + [Punct(t[..|t| - 1])]);
      } else {
        BadTurn(s, Ends(s), p, tokens, t, v);
      }
    }
  }

  lemma StringStep(s: string, p: nat, t: string, v: string, tokens: seq<Token>, st: Scan) returns (st': Scan)
    requires p <= |s| && Standing(s, p, st) && s[p..] == t + v && StringEnds(v) && StrText(t)
    requires Boundary(s, p) && p + |t| <= |s| && Boundary(s, p + |t|)
    requires EndsOk(s, Ends(s))
    ensures p + |t| <= |s| && Standing(s, p + |t|, st') && s[p + |t|..] == v
    ensures TokensFrom(s, Ends(s), p, tokens) == TokensFrom(s, Ends(s), p + |t|, tokens + [Text])
    ensures !SomeInterpolates(Inspect(s).regions) ==> NoMarker(t[1..|t| - 1])
  {
    hide Standing, EndsOk, ClosesLast, Ends, NoMarker;
    assert |s[p..]| == |t| + |v|;
    assert s[p..p + |t|] == s[p..][..|t|] == t;
    assert s[p + |t|..] == s[p..][|t|..] == v;
    assert v != "" ==> s[p + |t|] == s[p + |t|..][0];
    st' := PassString(s, p, t, st);
    StringEnd(s, p, |t|, st, st');
    assert s[p] == t[0];
  }

  /** A regular expression stands where an operand may, so its slash is not a division. */
  lemma RegexStep(s: string, p: nat, tokens: seq<Token>)
    requires p < |s| && s[p] == '/' && !AfterOperand(tokens) && EndsOk(s, Ends(s))
    ensures TokensFrom(s, Ends(s), p, tokens) == None
  {
    hide Ends, FindPunctuation;
    NoMarkEnd(s, p);
    assert s[p..][0] == '/';
  }

  /** Where a lexeme stops no prefix letters run on. */
  lemma StopsAtBoundary(s: string, p: nat, l: Lexeme, v: string)
    requires p <= |s| && s[p..] == l.text + v && Written(l) && Stops(l, v) && !l.RegexLex? && !l.TemplateLex?
    ensures p + |l.text| <= |s| && s[p + |l.text|..] == v && Boundary(s, p + |l.text|)
  {
    hide NumberRun, IsSpace, Closer, PunctText, IsDigit;
    var t, q := l.text, p + |l.text|;
    assert s[p..][|t|..] == v;
    assert |t| > 0 && s[q - 1] == s[p..][|t| - 1] == t[|t| - 1];
    if v != "" {
      assert s[q] == s[q..][0] == v[0];
      if l.PunctLex? {
        PunctTextStart(t);
      } else if l.StrLex? {
        CloseEnds(t, 1, false, t[0]);
      }
    }
  }

  /** Marks that would merge are rejected together. */
  lemma MergeTurn(s: string, ends: map<nat, nat>, p: nat, tokens: seq<Token>, t: string, v: string)
    requires EndsOk(s, ends) && p <= |s| && s[p..] == t + v && v != "" && p !in ends
    requires (t == ")" && v[0] == '=') || (t in {"+", "-"} && v[0] == t[0])
    ensures TurnAt(s, ends, p, tokens) == Reject
  {
    assert s[p] == t[0] && s[p..][1] == v[0];
  }

  lemma NotMerged(s: string, p: nat, rest: seq<Lexeme>, gaps: seq<string>, tokens: seq<Token>)
    requires |rest| > 1 && |gaps| == |rest| + 1 && Merge(rest[0], rest[1])
    requires p <= |s| && s[p..] == rest[0].text + Show(rest[1..], gaps[1..])
    requires EndsOk(s, Ends(s)) && TokensFrom(s, Ends(s), p, tokens).Some?
    ensures gaps[1] != ""
  {
    hide EndsOk, Ends, TurnAt;
    var t, v := rest[0].text, Show(rest[1..], gaps[1..]);
    assert s[p] == s[p..][0] == t[0];
    NoMarkEnd(s, p);
    if gaps[1] == "" {
      assert v == "" + (rest[1].text + Show(rest[1..][1..], gaps[1..][1..]));
      MergeTurn(s, Ends(s), p, tokens, t, v);
    }
  }

  lemma NoMergeFurther(rest: seq<Lexeme>, gaps: seq<string>)
    requires rest != [] && |gaps| == |rest| + 1 && NoMerge(rest[1..], gaps[1..])
    requires |rest| > 1 && Merge(rest[0], rest[1]) ==> gaps[1] != ""
    ensures NoMerge(rest, gaps)
  {
    hide Merge;
    forall i | 0 < i < |rest| && Merge(rest[i - 1], rest[i])
      ensures gaps[i] != ""
    {
      assert i > 1 ==>
          rest[1..][i - 1 - 1] == rest[i - 1] && rest[1..][i - 1] == rest[i] && gaps[1..][i - 1] == gaps[i];
    }
  }

  /** A string without an expansion marker, or no string at all. */
  predicate Unmarked(l: Lexeme) {
    l.StrLex? && |l.text| >= 2 ==> NoMarker(l.text[1..|l.text| - 1])
  }

  /** One lexeme of accepted text, of any kind. */
  lemma LexemeStep(s: string, p: nat, l: Lexeme, v: string, tokens: seq<Token>, st: Scan)
      returns (token: Token, st': Scan)
    requires p <= |s| && Standing(s, p, st) && s[p..] == l.text + v && Stops(l, v) && Boundary(s, p)
    requires Written(l) && (l.RegexLex? ==> !AfterOperand(tokens))
    requires !Inspect(s).unbalanced && !SomeInterpolates(Inspect(s).regions)
    requires EndsOk(s, Ends(s)) && TokensFrom(s, Ends(s), p, tokens).Some?
    ensures Lex(l) == Some(token) && p + |l.text| <= |s| && s[p + |l.text|..] == v
    ensures Standing(s, p + |l.text|, st') && Boundary(s, p + |l.text|)
    ensures TokensFrom(s, Ends(s), p, tokens) == TokensFrom(s, Ends(s), p + |l.text|, tokens + [token])
    ensures Unmarked(l)
  {
    hide Standing, EndsOk, Inspect, SomeInterpolates, TurnAt, Lex, Written, Ends, TokensFrom;
    NumWritten(l);
    assert l.text != "" ==> s[p..][0] == l.text[0];
    token, st' := Number, st;
    if l.RegexLex? {
      RegexStep(s, p, tokens);
    } else if l.TemplateLex? {
      TemplateInterpolates(s, p, st);
    } else if l.StrLex? {
      StopsAtBoundary(s, p, l, v);
      st' := StringStep(s, p, l.text, v, tokens, st);
      token := Text;
      StrLexes(l);
    } else {
      PlainLexeme(l);
      StopsAtBoundary(s, p, l, v);
      PassLexeme(s, p, l.text, v, st);
      token := PlainStep(s, p, l, v, tokens, st);
    }
  }

  /** White space is skipped, however much there is. */
  lemma {:induction false} GapTurns(s: string, p: nat, gap: string, u: string, tokens: seq<Token>, st: Scan)
    requires p <= |s| && Standing(s, p, st) && Boundary(s, p) && s[p..] == gap + u && Blank(gap)
    requires EndsOk(s, Ends(s))
    ensures p + |gap| <= |s| && s[p + |gap|..] == u && Standing(s, p + |gap|, st) && Boundary(s, p + |gap|)
    ensures TokensFrom(s, Ends(s), p, tokens) == TokensFrom(s, Ends(s), p + |gap|, tokens)
    decreases |gap|
  {
    hide Standing, Ends, EndsOk, IsSpace;
    if gap == "" {
      assert gap + u == u;
    } else {
      assert s[p] == s[p..][0] == gap[0];
      assert s[p + 1..] == s[p..][1..] == gap[1..] + u;
      SpaceTurn(s, p, tokens, st);
      GapTurns(s, p + 1, gap[1..], u, tokens, st);
    }
  }

  lemma SpaceTurn(s: string, q: nat, tokens: seq<Token>, st: Scan)
    requires Standing(s, q, st) && q < |s| && IsSpace(s[q]) && EndsOk(s, Ends(s))
    ensures TokensFrom(s, Ends(s), q, tokens) == TokensFrom(s, Ends(s), q + 1, tokens)
    ensures Standing(s, q + 1, st) && Boundary(s, q + 1)
  {
    hide ScanInv, Ends;
    PassPlain(s, q, 1, st);
  }

  /** What the walk knows of the lexemes still ahead. */
  ghost predicate Ahead(rest: seq<Lexeme>, gaps: seq<string>, tokens: seq<Token>) {
    && Layout(rest, gaps) && AllWritten(rest) && Placed(rest)
    && (rest != [] && rest[0].RegexLex? ==> !AfterOperand(tokens))
  }

  lemma AheadTail(rest: seq<Lexeme>, gaps: seq<string>, tokens: seq<Token>, token: Token)
    requires Ahead(rest, gaps, tokens) && rest != [] && Lex(rest[0]) == Some(token)
    ensures Ahead(rest[1..], gaps[1..], tokens + [token])
  {
    hide Lex, Written, Fuse, Blank;
    LayoutTail(rest, gaps);
    PlacedTail(rest);
    if |rest| > 1 {
      assert Follows(rest[1 - 1], rest[1]);
    }
  }

  lemma {:induction false} Walk(s: string, p: nat, rest: seq<Lexeme>, gaps: seq<string>, tokens: seq<Token>, st: Scan)
    returns (ts: seq<Token>)
    requires p <= |s| && Standing(s, p, st) && Boundary(s, p)
    requires Ahead(rest, gaps, tokens) && s[p..] == Show(rest, gaps)
    requires !Inspect(s).unbalanced && !SomeInterpolates(Inspect(s).regions)
    requires EndsOk(s, Ends(s)) && TokensFrom(s, Ends(s), p, tokens).Some?
    ensures TokensFrom(s, Ends(s), p, tokens) == Some(tokens + ts) && LexesTo(rest, ts)
    ensures NoMerge(rest, gaps) && forall l :: l in rest ==> Unmarked(l)
    decreases |rest|
  {
    hide Merge, NoMerge, Unmarked;
    hide Standing, Boundary, EndsOk, Inspect, SomeInterpolates, TokensFrom, Lex, Written, Ends, Placed, IsSpace;
    hide AfterOperand, LexesTo, Stops, Blank, Fuse;
    if rest == [] {
      ts := [];
      assert gaps[0] + "" == gaps[0];
      GapTurns(s, p, gaps[0], "", tokens, st);
      EndTokens(s, tokens);
      NoLexemes(gaps);
      assert tokens + ts == tokens;
    } else {
      var v := Show(rest[1..], gaps[1..]);
      LexemeStops(rest, gaps);
      GapTurns(s, p, gaps[0], rest[0].text + v, tokens, st);
      var token, st' := LexemeStep(s, p + |gaps[0]|, rest[0], v, tokens, st);
      if |rest| > 1 && Merge(rest[0], rest[1]) {
        NotMerged(s, p + |gaps[0]|, rest, gaps, tokens);
      }
      AheadTail(rest, gaps, tokens, token);
      var more := Walk(s, p + |gaps[0]| + |rest[0].text|, rest[1..], gaps[1..], tokens + [token], st');
      ts := [token] + more;
      LexesFurther(rest, token, more);
      NoMergeFurther(rest, gaps);
      assert rest == [rest[0]] + rest[1..];
      Rejoined(tokens, token, more);
    }
  }

  lemma NoLexemes(gaps: seq<string>)
    requires |gaps| == 1
    ensures LexesTo([], []) && NoMerge([], gaps)
  {
  }

  lemma Rejoined(tokens: seq<Token>, token: Token, more: seq<Token>)
    ensures tokens + [token] + more == tokens + ([token] + more)
  {
  }

  lemma LexesFurther(rest: seq<Lexeme>, token: Token, more: seq<Token>)
    requires rest != [] && Lex(rest[0]) == Some(token)
    requires LexesTo(rest[1..], more)
    ensures LexesTo(rest, [token] + more)
  {
    hide Lex;
    assert ([token] + more)[1..] == more;
  }

  lemma EndTokens(s: string, tokens: seq<Token>)
    requires EndsOk(s, Ends(s))
    ensures TokensFrom(s, Ends(s), |s|, tokens) == Some(tokens)
  {
  }

  lemma StrLexes(l: Lexeme)
    requires l.StrLex?
    ensures Lex(l) == Some(Text)
  {
  }

  // ----- the richer language, as text -----

  /** A tree of the richer language, spelled as the language spells it and laid out with any white space. */
  ghost predicate Laid(e: Rich, gaps: seq<string>) {
    WellFormed(e) && AllWritten(Lexemes(e)) && Layout(Lexemes(e), gaps)
  }

  function TextOf(e: Rich, gaps: seq<string>): string
    requires |gaps| == |Lexemes(e)| + 1
  {
    Show(Lexemes(e), gaps)
  }

  /** Accepted text is the vocabulary's tokens, lexeme by lexeme, whatever the white space. */
  lemma AcceptedTokens(e: Rich, gaps: seq<string>) returns (tokens: seq<Token>)
    requires Laid(e, gaps) && ProvenEffectFree(TextOf(e, gaps))
    ensures LexesTo(Lexemes(e), tokens) && Accepts(tokens)
    ensures NoMerge(Lexemes(e), gaps) && forall l :: l in Lexemes(e) ==> Unmarked(l)
  {
    hide Unmarked, Merge, NoMerge, Standing, Boundary, EndsOk, Stops, Bare;
    hide Accepts, Inspect, SomeInterpolates, Lex, Written, Placed, IsSpace, ScanFrom, Trim, Show, Blank, Fuse,
        WellFormed;
    var ls := Lexemes(e);
    BareLayout(ls, gaps);
    BareMerges(ls, gaps);
    TrimmedText(ls, gaps);
    var s := Show(ls, Bare(gaps));
    RichSettled(e);
    EndsOfOk(s);
    StartStanding(s);
    assert s[0..] == s;
    tokens := Walk(s, 0, ls, Bare(gaps), [], START);
    assert [] + tokens == tokens;
  }

  lemma StartStanding(s: string)
    ensures Standing(s, 0, START) && Boundary(s, 0)
  {
  }

  /** Text that is proven effect-free contains no effect node of the richer language. */
  lemma ProvenMeansEffectFree(e: Rich, gaps: seq<string>)
    requires Laid(e, gaps) && ProvenEffectFree(TextOf(e, gaps))
    ensures EffectFree(e)
  {
    var tokens := AcceptedTokens(e, gaps);
    AcceptedIsEffectFree(e, tokens);
  }

  /** Running it changes nothing, whatever the world's calls, reads, stores and words would do. */
  lemma ProvenKeepsStore<S, V>(w: World<S, V>, e: Rich, gaps: seq<string>, store: S)
    requires Laid(e, gaps) && ProvenEffectFree(TextOf(e, gaps))
    ensures Run(w, e, store).0 == store
  {
    ProvenMeansEffectFree(e, gaps);
    EffectFreeKeepsStore(w, e, store);
  }

  // ----- text without any white space -----

  lemma ShowPair(a: Lexeme, b: Lexeme)
    ensures Show([a, b], ["", "", ""]) == a.text + b.text
  {
    Show1(b);
    assert [a, b][1..] == [b] && ["", "", ""][1..] == ["", ""];
  }

  lemma Show1(a: Lexeme)
    ensures Show([a], ["", ""]) == a.text
  {
    assert ["", ""][1..] == [""];
  }

  lemma ShowTriple(a: Lexeme, b: Lexeme, c: Lexeme)
    ensures Show([a, b, c], ["", "", "", ""]) == a.text + b.text + c.text
  {
    ShowPair(b, c);
    assert [a, b, c][1..] == [b, c] && ["", "", "", ""][1..] == ["", "", ""];
  }

  /** An update, an assignment and a call, as they are usually written, are laid out like any tree. */
  lemma TightUpdate()
    ensures Laid(Update("--", true, Name("i")), ["", "", ""])
    ensures TextOf(Update("--", true, Name("i")), ["", "", ""]) == "--i"
  {
    hide Show;
    ShowPair(PunctLex("--"), WordLex("i"));
    assert Lexemes(Update("--", true, Name("i"))) == [PunctLex("--"), WordLex("i")];
    assert "--" + "i" == "--i";
  }

  lemma TightAssignment()
    ensures Laid(Assign(Name("x"), "+=", Name("y")), ["", "", "", ""])
    ensures TextOf(Assign(Name("x"), "+=", Name("y")), ["", "", "", ""]) == "x+=y"
  {
    hide Show;
    ShowTriple(WordLex("x"), PunctLex("+="), WordLex("y"));
    assert Lexemes(Assign(Name("x"), "+=", Name("y"))) == [WordLex("x"), PunctLex("+="), WordLex("y")];
    assert "x" + "+=" + "y" == "x+=y";
  }

  lemma TightCall()
    ensures Laid(Call(Name("f"), NoArgs), ["", "", "", ""])
    ensures TextOf(Call(Name("f"), NoArgs), ["", "", "", ""]) == "f()"
  {
    hide Show;
    ShowTriple(WordLex("f"), PunctLex("("), PunctLex(")"));
    assert Lexemes(Call(Name("f"), NoArgs)) == [WordLex("f"), PunctLex("("), PunctLex(")")];
    assert "f" + "(" + ")" == "f()";
  }

  lemma TightTextsRejected()
    ensures !ProvenEffectFree("--i") && !ProvenEffectFree("x+=y") && !ProvenEffectFree("f()")
  {
    hide ProvenEffectFree, Laid, TextOf;
    TightUpdate();
    TightAssignment();
    TightCall();
    if ProvenEffectFree("--i") {
      ProvenMeansEffectFree(Update("--", true, Name("i")), ["", "", ""]);
    }
    if ProvenEffectFree("x+=y") {
      ProvenMeansEffectFree(Assign(Name("x"), "+=", Name("y")), ["", "", "", ""]);
    }
    if ProvenEffectFree("f()") {
      ProvenMeansEffectFree(Call(Name("f"), NoArgs), ["", "", "", ""]);
    }
  }

  // ----- the one layout left out: a word directly before a string -----

  predicate Letters(w: string) {
    forall i :: 0 <= i < |w| ==> IsLetter(w[i])
  }

  predicate NoFormat(prefix: string) {
    forall k :: 0 <= k < |prefix| ==> prefix[k] !in {'f', 'F'}
  }

  predicate NoMarker(content: string) {
    forall k :: 0 <= k < |content| ==> content[k] !in {'%', '$', '{'}
  }

  /** The letters directly before the quote are part of the one string region. */
  lemma LettersJoinTheString(w: string, t: string)
    requires Letters(w) && StrText(t)
    ensures var content := t[1..|t| - 1];
            Inspect(w + t) == Inspection([Region(0, |w + t|, content, Interpolates(t[0], w, content))], false)
  {
    hide Interpolates, ScanInv, ClosesLast;
    var s, p := w + t, |w|;
    assert s[p..p + |t|] == t && s[p] == t[0] && s[p + 1] == t[1];
    forall k | 0 <= k < p
      ensures s[k] == w[k] && !IsQuote(s[k])
    {
    }
    StartStanding(s);
    PassPlain(s, 0, p, START);
    NotTriple(s, p, t);
    assert PrefixStart(s, p) == 0;
    assert s[0..p] == w;
    var inside := Scan(Quote.Single(t[0]), p + 1, 0, w, false, []);
    assert Step(s, p, START) == (p + 1, inside);
    PassContent(s, p, t, 1, inside);
    assert s[p + 1..p + |t| - 1] == t[1..|t| - 1];
  }

  lemma NotTriple(s: string, p: nat, t: string)
    requires p + |t| == |s| && s[p..] == t && StrText(t)
    ensures !TripleAt(s, p, t[0])
  {
    assert s[p + 1] == t[1];
  }

  lemma LettersJoinedTokens(w: string, t: string)
    requires Letters(w) && StrText(t)
    ensures Tokenize(w + t) == if Interpolates(t[0], w, t[1..|t| - 1]) then None else Some([Text])
  {
    hide Inspect, Interpolates, ClosesLast;
    var s := w + t;
    LettersJoinTheString(w, t);
    var regions := Inspect(s).regions;
    if regions[0].interpolating {
      assert SomeInterpolates(regions) && Tokenize(s) == None;
    } else {
      assert !SomeInterpolates(regions);
      EndsOfOk(s);
      var ends := EndsOf(regions);
      assert regions[..0] == [];
      assert ends == map[0 := |s|];
      assert !IsSpace(s[0]) by {
        assert IsLetter(s[0]) || s[0] == t[0];
      }
      var none: seq<Token> := [];
      assert TurnAt(s, ends, 0, none) == Emit(Text, |s|);
      assert none + [Text] == [Text];
      assert TokensFrom(s, ends, 0, none) == TokensFrom(s, ends, |s|, none + [Text]);
    }
  }

  /**
   * Letters written directly against a string are accepted with it exactly when none of them is an
   * `f` and the string has no expansion marker.
   */
  lemma LettersAcceptedIff(w: string, t: string)
    requires Letters(w) && StrText(t)
    ensures ProvenEffectFree(w + t) <==> NoFormat(w) && NoMarker(t[1..|t| - 1])
  {
    hide Tokenize, Accepts;
    var s := w + t;
    assert s[0] == (if w == "" then t[0] else w[0]);
    assert s[|s| - 1] == t[|t| - 1];
    CloseEnds(t, 1, false, t[0]);
    assert Trim(s) == s;
    LettersJoinedTokens(w, t);
    AcceptsIffDerivable([Text]);
    assert PrintTernary(Flat(Binary.Single(Plain(TextLit)))) == [Text];
  }

  /**
   * The claim fails for a word operator without white space before its string, and only there: the
   * text is accepted exactly when the word is not `typeof` and the string has no expansion marker.
   */
  lemma UnspacedWordAcceptedIff(word: string, t: string)
    requires word in WORD_OPERATORS && StrText(t)
    ensures TextOf(WordOp(word, StrLit(t)), ["", "", ""]) == word + t
    ensures ProvenEffectFree(word + t) <==> word != "typeof" && NoMarker(t[1..|t| - 1])
    ensures !EffectFree(WordOp(word, StrLit(t))) && !Layout(Lexemes(WordOp(word, StrLit(t))), ["", "", ""])
  {
    hide ProvenEffectFree, ClosesLast;
    OperatorLetters(word);
    LettersAcceptedIff(word, t);
    var ls := Lexemes(WordOp(word, StrLit(t)));
    assert Lexemes(StrLit(t)) == [StrLex(t)];
    assert ls == [WordLex(word), StrLex(t)];
    ShowPair(WordLex(word), StrLex(t));
    assert Fuse(ls[1 - 1], ls[1]);
  }

  lemma OperatorLetters(word: string)
    requires word in WORD_OPERATORS
    ensures Letters(word) && (NoFormat(word) <==> word != "typeof")
  {
    assert "typeof"[5] == 'f';
  }
}
