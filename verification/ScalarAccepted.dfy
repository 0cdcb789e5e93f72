/**
 * Exactly which text is accepted: an effect-free expression in any layout, if every property is read
 * off a name, no name is a reserved word, no string holds an expansion marker, and no two marks are
 * written so that they merge.
 */
module ScalarAccepted {
  import opened Wrappers
  import opened ScalarGrammar
  import opened QuotedRegions
  import opened ScalarPurity
  import opened ScalarTokenizer
  import opened ScalarRecognizer
  import opened ScalarLayout
  import opened ScalarText
  import opened ScalarTrees

  ghost predicate Plainly(ls: seq<Lexeme>) {
    forall i :: 0 <= i < |ls| ==> Lex(ls[i]).Some? && Unmarked(ls[i])
  }

  predicate NoneInterpolates(regions: seq<Region>) {
    forall i :: 0 <= i < |regions| ==> !regions[i].interpolating
  }

  /** The lexemes ahead: laid out, spelled, placed, and of the closed vocabulary. */
  ghost predicate Fit(rest: seq<Lexeme>, gaps: seq<string>) {
    Layout(rest, gaps) && AllWritten(rest) && Placed(rest) && Plainly(rest) && NoMerge(rest, gaps)
  }

  lemma FitTail(rest: seq<Lexeme>, gaps: seq<string>)
    requires Fit(rest, gaps) && rest != []
    ensures Fit(rest[1..], gaps[1..])
  {
    hide Lex, Written, Fuse, Blank, Merge, Unmarked;
    LayoutTail(rest, gaps);
    PlacedTail(rest);
    forall i | 0 < i < |rest[1..]| && Merge(rest[1..][i - 1], rest[1..][i])
      ensures gaps[1..][i] != ""
    {
      assert rest[1..][i - 1] == rest[i + 1 - 1] && rest[1..][i] == rest[i + 1];
    }
  }

  lemma FitHead(rest: seq<Lexeme>, gaps: seq<string>)
    requires Fit(rest, gaps) && rest != []
    ensures Written(rest[0]) && Lex(rest[0]).Some? && Unmarked(rest[0])
    ensures Stops(rest[0], Show(rest[1..], gaps[1..]))
  {
    hide Lex, Fuse, Blank, Merge, Unmarked, Stops, Written, Show;
    LexemeStops(rest, gaps);
  }

  // ----- the quotes are balanced and inert -----

  /** The scanner passes a lexeme of the vocabulary; a string without marker leaves a plain region. */
  lemma ScanLexeme(s: string, p: nat, l: Lexeme, v: string, st: Scan) returns (st': Scan)
    requires p <= |s| && Standing(s, p, st) && s[p..] == l.text + v && Stops(l, v) && Boundary(s, p)
    requires Written(l) && Lex(l).Some? && Unmarked(l) && NoneInterpolates(st.regions)
    ensures p + |l.text| <= |s| && s[p + |l.text|..] == v
    ensures Standing(s, p + |l.text|, st') && Boundary(s, p + |l.text|) && NoneInterpolates(st'.regions)
  {
    hide Standing, Written, NoMarker, Boundary, Stops;
    NumWritten(l);
    VocabularyKinds(l);
    StopsAtBoundary(s, p, l, v);
    if l.StrLex? {
      assert s[p..p + |l.text|] == s[p..][..|l.text|] == l.text;
      StringStops(l, v);
      assert v != "" ==> s[p + |l.text|] == s[p + |l.text|..][0];
      st' := PassString(s, p, l.text, st);
      LaterPlain(st.regions, st'.regions);
    } else {
      PlainLexeme(l);
      PassLexeme(s, p, l.text, v, st);
      st' := st;
    }
  }

  lemma VocabularyKinds(l: Lexeme)
    requires Lex(l).Some?
    ensures !l.RegexLex? && !l.TemplateLex?
  {
    hide SCALAR_PUNCTUATION, NON_SCALAR_WORDS;
  }

  lemma StringStops(l: Lexeme, v: string)
    requires l.StrLex? && Stops(l, v)
    ensures v == "" || !IsQuote(v[0])
  {
  }

  lemma LaterPlain(before: seq<Region>, after: seq<Region>)
    requires NoneInterpolates(before) && |after| == |before| + 1 && after[..|before|] == before
    requires !after[|before|].interpolating
    ensures NoneInterpolates(after)
  {
    forall i | 0 <= i < |after|
      ensures !after[i].interpolating
    {
      assert i < |before| ==> after[i] == before[i];
    }
  }

  lemma {:induction false} ScanWalk(s: string, p: nat, rest: seq<Lexeme>, gaps: seq<string>, st: Scan)
      returns (st': Scan)
    requires p <= |s| && Standing(s, p, st) && Boundary(s, p) && NoneInterpolates(st.regions)
    requires Fit(rest, gaps) && s[p..] == Show(rest, gaps)
    ensures Standing(s, |s|, st') && NoneInterpolates(st'.regions)
    decreases |rest|
  {
    hide Standing, Boundary, Ends, EndsOk, NoneInterpolates, Lex, Written, Stops, Unmarked, Fuse, Merge, TokensFrom;
    TextEndsOk(s);
    BlankGap(rest, gaps);
    if rest == [] {
      assert gaps[0] + "" == gaps[0];
      GapTurns(s, p, gaps[0], "", [], st);
      st' := st;
    } else {
      var v := Show(rest[1..], gaps[1..]);
      FitHead(rest, gaps);
      GapTurns(s, p, gaps[0], rest[0].text + v, [], st);
      var st1 := ScanLexeme(s, p + |gaps[0]|, rest[0], v, st);
      FitTail(rest, gaps);
      st' := ScanWalk(s, p + |gaps[0]| + |rest[0].text|, rest[1..], gaps[1..], st1);
    }
  }

  lemma TextEndsOk(s: string)
    ensures EndsOk(s, Ends(s))
  {
    EndsOfOk(s);
  }

  lemma BlankGap(rest: seq<Lexeme>, gaps: seq<string>)
    requires Fit(rest, gaps)
    ensures |gaps| == |rest| + 1 && Blank(gaps[0])
  {
    hide Blank, Fuse, Merge, Written, Lex, Unmarked;
  }

  lemma ScanEnds(s: string, st: Scan)
    requires Standing(s, |s|, st)
    ensures Inspect(s) == Inspection(st.regions, false)
  {
  }

  // ----- every lexeme becomes its token -----

  /** Nothing in the text after the mark makes the scanner reject it. */
  predicate Unmerged(t: string, v: string) {
    v != "" ==> !(t == ")" && v[0] == '=') && !(t in {"+", "-"} && v[0] == t[0])
  }

  /** Longest match finds exactly the mark. */
  lemma VocabularyFinds(t: string, v: string)
    requires t in SCALAR_PUNCTUATION && MarkEnds(t, v) && Unmerged(t, v)
    ensures if EqualsFamily(t + v) then FindComparison(t + v) == Some(t) else FindPunctuation(t + v) == Some(t)
  {
  }

  lemma VocabularyEmits(s: string, ends: map<nat, nat>, p: nat, tokens: seq<Token>, t: string, v: string)
    requires EndsOk(s, ends) && p <= |s| && s[p..] == t + v && t in SCALAR_PUNCTUATION && p !in ends
    requires MarkEnds(t, v) && Unmerged(t, v) && (t == "/" ==> AfterOperand(tokens))
    ensures TurnAt(s, ends, p, tokens) == Emit(Punct(t), p + |t|)
  {
    hide SCALAR_PUNCTUATION, FindComparison, FindPunctuation, EqualsFamily, IsSpace, IsQuote, IsDigit, IsWordStart;
    hide AfterOperand;
    VocabularyFinds(t, v);
    VocabularyStart(t);
    assert s[p] == t[0];
  }

  lemma VocabularyStart(t: string)
    requires t in SCALAR_PUNCTUATION
    ensures PunctText(t) && |t| > 0 && PunctStart(t[0]) && (t[0] == '/' ==> t == "/")
  {
    PunctTextStart(t);
  }

  /** In a layout without merging marks the next character merges with no mark. */
  lemma NextUnmerged(rest: seq<Lexeme>, gaps: seq<string>)
    requires rest != [] && Fit(rest, gaps) && rest[0].PunctLex?
    ensures Unmerged(rest[0].text, Show(rest[1..], gaps[1..]))
  {
    hide Fuse, Written, IsSpace, Unmarked, Merge, Lex, Placed;
    var v := Show(rest[1..], gaps[1..]);
    assert Blank(gaps[1]);
    if gaps[1] != "" || |rest| == 1 {
      assert v != "" ==> v[0] == gaps[1][0];
      SpaceMergesNothing(rest[0].text, v);
    } else {
      assert v == "" + (rest[1].text + Show(rest[1..][1..], gaps[1..][1..]));
      assert !Merge(rest[1 - 1], rest[1]) && Written(rest[1]) && Lex(rest[1]).Some?;
      NeighbourMerges(rest[0].text, rest[1], v);
    }
  }

  lemma SpaceMergesNothing(t: string, v: string)
    requires v == "" || IsSpace(v[0])
    ensures Unmerged(t, v)
  {
  }

  lemma NeighbourMerges(t: string, b: Lexeme, v: string)
    requires Written(b) && Lex(b).Some? && !Merge(PunctLex(t), b) && b.text <= v
    ensures Unmerged(t, v)
  {
    hide NumText, StrText, WordText, PunctText, IsSpace, NON_SCALAR_WORDS;
    WrittenStart(b);
    assert v[0] == b.text[0];
    if b.PunctLex? {
      MarkStarts(b.text);
    }
  }

  lemma MarkStarts(t: string)
    requires t in SCALAR_PUNCTUATION
    ensures |t| > 0
    ensures t[0] == '=' ==> t in {"==", "==="}
    ensures t[0] == '+' ==> t == "+"
    ensures t[0] == '-' ==> t == "-"
  {
  }

  lemma EmitLexeme(s: string, p: nat, rest: seq<Lexeme>, gaps: seq<string>, tokens: seq<Token>, st: Scan)
    returns (token: Token, st': Scan)
    requires rest != [] && Fit(rest, gaps) && p <= |s| && Standing(s, p, st) && Boundary(s, p)
    requires s[p..] == rest[0].text + Show(rest[1..], gaps[1..])
    requires EndsOk(s, Ends(s)) && (rest[0] == PunctLex("/") ==> AfterOperand(tokens))
    ensures var q := p + |rest[0].text|;
      && q <= |s| && s[q..] == Show(rest[1..], gaps[1..]) && Standing(s, q, st') && Boundary(s, q)
      && Lex(rest[0]) == Some(token)
      && TokensFrom(s, Ends(s), p, tokens) == TokensFrom(s, Ends(s), q, tokens + [token])
  {
    hide Standing, EndsOk, Ends, TurnAt, Written, Stops, Boundary, Unmarked, Show, Merge, Fit, SCALAR_PUNCTUATION;
    hide NON_SCALAR_WORDS, AfterOperand;
    BlankGap(rest, gaps);
    var l, v := rest[0], Show(rest[1..], gaps[1..]);
    FitHead(rest, gaps);
    NumWritten(l);
    VocabularyKinds(l);
    StopsAtBoundary(s, p, l, v);
    StopsMeans(l, v);
    if l.StrLex? {
      st' := StringStep(s, p, l.text, v, tokens, st);
      token := Text;
    } else {
      st' := st;
      PlainLexeme(l);
      PassLexeme(s, p, l.text, v, st);
      match l
      case NumLex(t) =>
        NumTurn(s, Ends(s), p, tokens, t, v);
        token := Number;
      case WordLex(t) =>
        WordTurn(s, Ends(s), p, tokens, t, v);
        token := Ident(t);
      case PunctLex(t) =>
        NextUnmerged(rest, gaps);
        VocabularyEmits(s, Ends(s), p, tokens, t, v);
        token := Punct(t);
    }
  }

  lemma StopsMeans(l: Lexeme, v: string)
    requires Stops(l, v)
    ensures l.NumLex? ==> NumberEnds(v)
    ensures l.WordLex? ==> WordEnds(v)
    ensures l.StrLex? ==> StringEnds(v)
    ensures l.PunctLex? ==> MarkEnds(l.text, v)
  {
  }

  /** A slash in an expression of the vocabulary comes after an operand. */
  lemma SlashAfterOperand(rest: seq<Lexeme>, gaps: seq<string>, tokens: seq<Token>, token: Token)
    requires |rest| > 1 && Fit(rest, gaps) && Lex(rest[0]) == Some(token) && rest[1] == PunctLex("/")
    ensures AfterOperand(tokens + [token])
  {
    hide Lex, Written, Fuse, Blank, Merge, Unmarked;
    assert Follows(rest[1 - 1], rest[1]);
    ClosingToken(rest[0], token);
  }

  lemma ClosingToken(l: Lexeme, token: Token)
    requires Closes(l) && Lex(l) == Some(token)
    ensures OperandEnd(token)
  {
    hide NON_SCALAR_WORDS;
    EffectMarksUnlexed();
    if l.PunctLex? {
      assert l.text in {")", "]", "++", "--"};
      assert "]" !in SCALAR_PUNCTUATION;
    }
  }

  lemma {:induction false} TokenWalk(s: string, p: nat, rest: seq<Lexeme>, gaps: seq<string>, tokens: seq<Token>,
      st: Scan)
    returns (ts: seq<Token>)
    requires p <= |s| && Standing(s, p, st) && Boundary(s, p)
    requires Fit(rest, gaps) && s[p..] == Show(rest, gaps) && EndsOk(s, Ends(s))
    requires rest != [] && rest[0] == PunctLex("/") ==> AfterOperand(tokens)
    ensures TokensFrom(s, Ends(s), p, tokens) == Some(tokens + ts) && LexesTo(rest, ts)
    decreases |rest|
  {
    hide Standing, Boundary, EndsOk, TokensFrom, Lex, Ends, AfterOperand, LexesTo, Fit;
    BlankGap(rest, gaps);
    if rest == [] {
      ts := [];
      assert gaps[0] + "" == gaps[0];
      GapTurns(s, p, gaps[0], "", tokens, st);
      EndTokens(s, tokens);
      NoLexemes(gaps);
      assert tokens + ts == tokens;
    } else {
      var v := Show(rest[1..], gaps[1..]);
      GapTurns(s, p, gaps[0], rest[0].text + v, tokens, st);
      var token, st' := EmitLexeme(s, p + |gaps[0]|, rest, gaps, tokens, st);
      if |rest| > 1 && rest[1] == PunctLex("/") {
        SlashAfterOperand(rest, gaps, tokens, token);
      }
      FitTail(rest, gaps);
      var more := TokenWalk(s, p + |gaps[0]| + |rest[0].text|, rest[1..], gaps[1..], tokens + [token], st');
      ts := [token] + more;
      LexesFurther(rest, token, more);
      Rejoined(tokens, token, more);
    }
  }

  /** Text in the vocabulary is tokenized, lexeme by lexeme. */
  lemma Tokenized(ls: seq<Lexeme>, gaps: seq<string>) returns (tokens: seq<Token>)
    requires Fit(ls, gaps) && (ls != [] ==> ls[0] != PunctLex("/"))
    ensures Tokenize(Show(ls, gaps)) == Some(tokens) && LexesTo(ls, tokens)
  {
    hide Standing, ScanFrom, Inspect, Lex, Fit, Show, TokensFrom;
    BlankGap(ls, gaps);
    var s := Show(ls, gaps);
    EndsOfOk(s);
    StartStanding(s);
    assert s[0..] == s;
    var st := ScanWalk(s, 0, ls, gaps, START);
    ScanEnds(s, st);
    tokens := TokenWalk(s, 0, ls, gaps, [], START);
    assert [] + tokens == tokens;
  }

  // ----- character classes -----

  /** White space: control characters, the space and its relatives, and the line separators. */
  const SPACES: set<char> := {
    '\t', '\n', '\U{000B}', '\U{000C}', '\r', ' ', '\U{00A0}', '\U{1680}',
    '\U{2000}', '\U{2001}', '\U{2002}', '\U{2003}', '\U{2004}', '\U{2005}', '\U{2006}', '\U{2007}', '\U{2008}',
    '\U{2009}', '\U{200A}', '\U{2028}', '\U{2029}', '\U{202F}', '\U{205F}', '\U{3000}', '\U{FEFF}'
  }

  lemma SpacesAre(c: char)
    ensures IsSpace(c) <==> c in SPACES
  {
  }

  // ----- the theorem -----

  /** No name in the expression is a reserved word. */
  ghost predicate NamesFree(ls: seq<Lexeme>) {
    forall i :: 0 <= i < |ls| && ls[i].WordLex? ==> ls[i].text !in NON_SCALAR_WORDS
  }

  /** No string holds an expansion marker. */
  ghost predicate StringsInert(ls: seq<Lexeme>) {
    forall i :: 0 <= i < |ls| ==> Unmarked(ls[i])
  }

  /** Every mark of the vocabulary is one of the grammar's, and the other way round. */
  lemma MarksOfTheGrammar(mark: string)
    ensures mark in SCALAR_PUNCTUATION <==>
            mark in BINARY_OPERATORS || mark in UNARY_OPERATORS || mark in {"(", ")", "?", ":", "."}
  {
  }

  /** A word, or of the vocabulary. */
  predicate WordOrLexed(l: Lexeme) {
    l.WordLex? || Lex(l).Some?
  }

  ghost predicate WordsOrLexed(ls: seq<Lexeme>) {
    forall i :: 0 <= i < |ls| ==> WordOrLexed(ls[i])
  }

  lemma WordsOrLexedConcat(a: seq<Lexeme>, b: seq<Lexeme>)
    requires WordsOrLexed(a) && WordsOrLexed(b)
    ensures WordsOrLexed(a + b)
  {
    hide WordOrLexed;
  }

  lemma MarkLexed(mark: string)
    requires mark in BINARY_OPERATORS || mark in UNARY_OPERATORS || mark in {"(", ")", "?", ":", "."}
    ensures WordsOrLexed([PunctLex(mark)])
  {
    MarksOfTheGrammar(mark);
    hide SCALAR_PUNCTUATION, BINARY_OPERATORS, UNARY_OPERATORS;
  }

  /** Apart from its words, an effect-free expression is of the vocabulary. */
  lemma {:induction false} EffectFreeLexes(e: Rich)
    requires WellFormed(e) && EffectFree(e)
    ensures WordsOrLexed(Lexemes(e))
    decreases |Lexemes(e)|
  {
    hide WordsOrLexed, BINARY_OPERATORS, UNARY_OPERATORS, Observation;
    match e
    case Parens(inner) =>
      EffectFreeLexes(inner);
      MarkLexed("(");
      MarkLexed(")");
      WordsOrLexedConcat([PunctLex("(")], Lexemes(inner));
      WordsOrLexedConcat([PunctLex("(")] + Lexemes(inner), [PunctLex(")")]);
    case UnaryOp(op, inner) =>
      EffectFreeLexes(inner);
      MarkLexed(op);
      WordsOrLexedConcat([PunctLex(op)], Lexemes(inner));
    case BinaryOp(l, op, r) =>
      MarkLexed(op);
      InfixLexes(l, op, r);
    case Conditional(c, y, n) =>
      EffectFreeLexes(c);
      MarkLexed("?");
      MarkLexed(":");
      InfixLexes(y, ":", n);
      WordsOrLexedConcat(Lexemes(c), [PunctLex("?")]);
      WordsOrLexedConcat(Lexemes(c) + [PunctLex("?")], Lexemes(y) + [PunctLex(":")] + Lexemes(n));
    case Member(inner, property) =>
      EffectFreeLexes(inner);
      MarkLexed(".");
      OneWord(property);
      WordsOrLexedConcat([PunctLex(".")], [WordLex(property)]);
      assert [PunctLex(".")] + [WordLex(property)] == [PunctLex("."), WordLex(property)];
      WordsOrLexedConcat(Lexemes(inner), [PunctLex("."), WordLex(property)]);
    case _ => LeafLexed(e);
  }

  lemma OneWord(word: string)
    ensures WordsOrLexed([WordLex(word)])
  {
  }

  lemma LeafLexed(e: Rich)
    requires e.NumLit? || e.StrLit? || e.Name?
    ensures WordsOrLexed(Lexemes(e))
  {
  }

  lemma {:induction false} InfixLexes(l: Rich, mark: string, r: Rich)
    requires WellFormed(l) && EffectFree(l) && WellFormed(r) && EffectFree(r) && WordsOrLexed([PunctLex(mark)])
    ensures WordsOrLexed(Lexemes(l) + [PunctLex(mark)] + Lexemes(r))
    decreases |Lexemes(l)| + |Lexemes(r)|
  {
    hide WordsOrLexed;
    EffectFreeLexes(l);
    EffectFreeLexes(r);
    WordsOrLexedConcat(Lexemes(l), [PunctLex(mark)]);
    WordsOrLexedConcat(Lexemes(l) + [PunctLex(mark)], Lexemes(r));
  }

  lemma WordsInVocabulary(ls: seq<Lexeme>)
    requires WordsOrLexed(ls) && StringsInert(ls)
    ensures NamesFree(ls) <==> Plainly(ls)
  {
    hide SCALAR_PUNCTUATION, NON_SCALAR_WORDS, Unmarked;
    forall i | 0 <= i < |ls|
      ensures Lex(ls[i]).Some? <==> (ls[i].WordLex? ==> ls[i].text !in NON_SCALAR_WORDS)
    {
      assert WordOrLexed(ls[i]);
    }
  }

  lemma LexedPlainly(ls: seq<Lexeme>, tokens: seq<Token>)
    requires LexesTo(ls, tokens) && forall l :: l in ls ==> Unmarked(l)
    ensures Plainly(ls) && StringsInert(ls)
  {
    hide Lex, Unmarked;
    forall i | 0 <= i < |ls|
      ensures Lex(ls[i]).Some? && Unmarked(ls[i])
    {
      assert ls[i] in ls;
    }
  }

  lemma LaidLength(e: Rich, gaps: seq<string>)
    requires Laid(e, gaps)
    ensures |gaps| == |Lexemes(e)| + 1 && WellFormed(e)
  {
    hide WellFormed, AllWritten;
  }

  /** Text in the vocabulary, without merging marks, is accepted if its expression is. */
  lemma PlainTextProven(e: Rich, gaps: seq<string>)
    requires Laid(e, gaps) && EffectFree(e) && Readable(e)
    requires Plainly(Lexemes(e)) && NoMerge(Lexemes(e), gaps)
    ensures ProvenEffectFree(TextOf(e, gaps))
  {
    hide Plainly, NoMerge, Placed, Layout, Written, Tokenize, Accepts, Trim, Show, EffectFree, Readable, Bare;
    var ls := Lexemes(e);
    LaidLength(e, gaps);
    RichSettled(e);
    BareLayout(ls, gaps);
    BareMerges(ls, gaps);
    TrimmedText(ls, gaps);
    var tokens := Tokenized(ls, Bare(gaps));
    AcceptedIff(e, tokens);
  }

  /**
   * Text is proven effect-free exactly when its expression is effect-free, reads properties off names
   * only, names no reserved word, holds no string with an expansion marker, and is written without
   * merging marks.
   */
  lemma ProvenIff(e: Rich, gaps: seq<string>)
    requires Laid(e, gaps)
    ensures ProvenEffectFree(TextOf(e, gaps)) <==>
      && EffectFree(e) && Readable(e)
      && NamesFree(Lexemes(e)) && StringsInert(Lexemes(e)) && NoMerge(Lexemes(e), gaps)
  {
    hide ProvenEffectFree, EffectFree, Readable, NamesFree, StringsInert, NoMerge, Plainly, LexesTo, Accepts;
    hide WordsOrLexed, AllWritten, Layout;
    var ls := Lexemes(e);
    LaidLength(e, gaps);
    if ProvenEffectFree(TextOf(e, gaps)) {
      var tokens := AcceptedTokens(e, gaps);
      AcceptedIff(e, tokens);
      LexedPlainly(ls, tokens);
    }
    if EffectFree(e) {
      EffectFreeLexes(e);
      if StringsInert(ls) {
        WordsInVocabulary(ls);
      }
    }
    if EffectFree(e) && Readable(e) && NamesFree(ls) && StringsInert(ls) && NoMerge(ls, gaps) {
      PlainTextProven(e, gaps);
    }
  }

  // ----- every tree of the grammar -----

  lemma SplitLexemes(ls: seq<Lexeme>, a: seq<Token>, b: seq<Token>)
    requires LexesTo(ls, a + b)
    ensures |ls| == |a| + |b| && ls == ls[..|a|] + ls[|a|..] && LexesTo(ls[..|a|], a) && LexesTo(ls[|a|..], b)
  {
    hide Lex;
    forall i | 0 <= i < |a|
      ensures Lex(ls[..|a|][i]) == Some(a[i])
    {
      assert (a + b)[i] == a[i];
    }
    forall i | 0 <= i < |b|
      ensures Lex(ls[|a|..][i]) == Some(b[i])
    {
      assert (a + b)[|a| + i] == b[i];
    }
  }

  lemma SplitMark(ls: seq<Lexeme>, a: seq<Token>, mark: string, b: seq<Token>)
    requires LexesTo(ls, a + [Punct(mark)] + b)
    ensures
      && |ls| == |a| + 1 + |b| && ls == ls[..|a|] + [PunctLex(mark)] + ls[|a| + 1..]
      && LexesTo(ls[..|a|], a) && LexesTo(ls[|a| + 1..], b)
  {
    hide Lex;
    SplitLexemes(ls, a + [Punct(mark)], b);
    var front := ls[..|a| + 1];
    SplitLexemes(front, a, [Punct(mark)]);
    assert Lex(front[|a|..][0]) == Some([Punct(mark)][0]);
    OneMark(front[|a|], mark);
    assert ls[..|a|] == front[..|a|];
  }

  lemma OneMark(l: Lexeme, mark: string)
    requires Lex(l) == Some(Punct(mark))
    ensures l == PunctLex(mark)
  {
    hide SCALAR_PUNCTUATION, NON_SCALAR_WORDS;
  }

  lemma OneToken(l: Lexeme)
    ensures Lex(l) == Some(Number) ==> l.NumLex?
    ensures Lex(l) == Some(Text) ==> l.StrLex?
    ensures Lex(l).Some? && Lex(l).value.Ident? ==> l == WordLex(Lex(l).value.value)
  {
    hide SCALAR_PUNCTUATION, NON_SCALAR_WORDS;
  }

  /** What a tree of the grammar is as an expression of the richer language. */
  ghost predicate Enriches(e: Rich, ls: seq<Lexeme>) {
    WellFormed(e) && EffectFree(e) && Readable(e) && Lexemes(e) == ls
  }

  lemma SplitProperty(w: string, init: seq<string>, property: string, ls: seq<Lexeme>)
    requires LexesTo(ls, [Ident(w)] + PrintObservations(init + [property]))
    ensures var front := [Ident(w)] + PrintObservations(init);
      && |ls| == |front| + 2 && LexesTo(ls[..|front|], front)
      && ls == ls[..|front|] + [PunctLex("."), WordLex(property)]
  {
    hide Lex, PrintObservations;
    ObservationsAppend(init, property);
    var front, back := [Ident(w)] + PrintObservations(init), [Punct("."), Ident(property)];
    Regroup([Ident(w)], PrintObservations(init), back, []);
    assert [Ident(w)] + PrintObservations(init + [property]) == front + back;
    SplitLexemes(ls, front, back);
    var rest := ls[|front|..];
    assert Lex(rest[0]) == Some(back[0]) && Lex(rest[1]) == Some(back[1]);
    OneMark(rest[0], ".");
    OneToken(rest[1]);
    assert rest == [PunctLex("."), WordLex(property)];
  }

  lemma {:induction false} EnrichWord(w: string, obs: seq<string>, ls: seq<Lexeme>) returns (e: Rich)
    requires forall i :: 0 <= i < |obs| ==> Observation(obs[i])
    requires (LiteralWord(w) ==> obs == []) && LexesTo(ls, [Ident(w)] + PrintObservations(obs))
    ensures Enriches(e, ls) && (!LiteralWord(w) ==> EndsInName(ls))
    decreases |obs|
  {
    hide LiteralWord, Observation, Lex, LexesTo;
    if obs == [] {
      OneName(w, ls);
      e := Name(w);
    } else {
      var init, property := obs[..|obs| - 1], obs[|obs| - 1];
      assert obs == init + [property];
      ObservationIsName(property);
      SplitProperty(w, init, property, ls);
      var inner := EnrichWord(w, init, ls[..|[Ident(w)] + PrintObservations(init)|]);
      e := Member(inner, property);
    }
  }

  lemma OneName(w: string, ls: seq<Lexeme>)
    requires LexesTo(ls, [Ident(w)] + PrintObservations([]))
    ensures ls == [WordLex(w)]
  {
    hide Lex;
    OneToken(ls[0]);
    assert Lex(ls[0]) == Some(([Ident(w)] + PrintObservations([]))[0]);
  }

  lemma {:induction false} EnrichPrimary(p: Primary, ls: seq<Lexeme>) returns (e: Rich)
    requires PrimaryOk(p) && LexesTo(ls, PrintPrimary(p))
    ensures Enriches(e, ls)
    decreases p
  {
    hide Lex, Observation, LiteralWord;
    match p
    case NumberLit =>
      OneToken(ls[0]);
      e := NumLit(ls[0].text);
    case TextLit =>
      OneToken(ls[0]);
      e := StrLit(ls[0].text);
    case Word(w, obs) => e := EnrichWord(w, obs, ls);
    case Paren(inner) =>
      assert PrintPrimary(p) == [Punct("(")] + PrintTernary(inner) + [Punct(")")];
      SplitParens(ls, PrintTernary(inner));
      var e1 := EnrichTernary(inner, ls[1..|ls| - 1]);
      e := Parens(e1);
  }

  lemma SplitParens(ls: seq<Lexeme>, body: seq<Token>)
    requires LexesTo(ls, [Punct("(")] + body + [Punct(")")])
    ensures |ls| >= 2 && LexesTo(ls[1..|ls| - 1], body)
    ensures ls == [PunctLex("(")] + ls[1..|ls| - 1] + [PunctLex(")")]
  {
    hide Lex, LexesTo;
    var close := [Punct(")")];
    assert [Punct("(")] + body + close == [] + [Punct("(")] + (body + close);
    SplitMark(ls, [], "(", body + close);
    SplitLast(ls[1..], body);
    assert ls[1..][..|body|] == ls[1..|ls| - 1];
  }

  lemma SplitLast(rest: seq<Lexeme>, body: seq<Token>)
    requires LexesTo(rest, body + [Punct(")")])
    ensures |rest| == |body| + 1 && rest == rest[..|body|] + [PunctLex(")")] && LexesTo(rest[..|body|], body)
  {
    hide Lex, LexesTo;
    assert body + [Punct(")")] == body + [Punct(")")] + [];
    SplitMark(rest, body, ")", []);
  }

  lemma {:induction false} EnrichUnary(u: Unary, ls: seq<Lexeme>) returns (e: Rich)
    requires UnaryOk(u) && LexesTo(ls, PrintUnary(u))
    ensures Enriches(e, ls)
    decreases u
  {
    hide Lex, UNARY_OPERATORS;
    match u
    case Prefixed(op, operand) =>
      assert PrintUnary(u) == [] + [Punct(op)] + PrintUnary(operand);
      SplitMark(ls, [], op, PrintUnary(operand));
      var e1 := EnrichUnary(operand, ls[1..]);
      e := UnaryOp(op, e1);
    case Plain(p) => e := EnrichPrimary(p, ls);
  }

  lemma {:induction false} EnrichBinary(b: Binary, ls: seq<Lexeme>) returns (e: Rich)
    requires BinaryOk(b) && LexesTo(ls, PrintBinary(b))
    ensures Enriches(e, ls)
    decreases b
  {
    hide Lex, BINARY_OPERATORS;
    match b
    case Single(u) => e := EnrichUnary(u, ls);
    case Chain(u, op, rest) =>
      SplitMark(ls, PrintUnary(u), op, PrintBinary(rest));
      var e1 := EnrichUnary(u, ls[..|PrintUnary(u)|]);
      var e2 := EnrichBinary(rest, ls[|PrintUnary(u)| + 1..]);
      e := BinaryOp(e1, op, e2);
  }

  lemma {:induction false} EnrichTernary(t: Ternary, ls: seq<Lexeme>) returns (e: Rich)
    requires TernaryOk(t) && LexesTo(ls, PrintTernary(t))
    ensures Enriches(e, ls)
    decreases t
  {
    hide Lex;
    match t
    case Flat(b) => e := EnrichBinary(b, ls);
    case Choice(c, yes, no) =>
      var first, tail := PrintBinary(c), PrintTernary(yes) + [Punct(":")] + PrintTernary(no);
      Regroup(first + [Punct("?")], PrintTernary(yes), [Punct(":")], PrintTernary(no));
      SplitMark(ls, first, "?", tail);
      var rest := ls[|first| + 1..];
      SplitMark(rest, PrintTernary(yes), ":", PrintTernary(no));
      var e1 := EnrichBinary(c, ls[..|first|]);
      var e2 := EnrichTernary(yes, rest[..|PrintTernary(yes)|]);
      var e3 := EnrichTernary(no, rest[|PrintTernary(yes)| + 1..]);
      e := Conditional(e1, e2, e3);
  }

  /**
   * Every tree of the grammar, however spelled and laid out, is accepted as text exactly when its
   * strings are inert and no marks merge.
   */
  lemma TreeProvenIff(t: Ternary, ls: seq<Lexeme>, gaps: seq<string>)
    requires TernaryOk(t) && LexesTo(ls, PrintTernary(t)) && AllWritten(ls) && Layout(ls, gaps)
    ensures ProvenEffectFree(Show(ls, gaps)) <==> StringsInert(ls) && NoMerge(ls, gaps)
  {
    hide ProvenEffectFree, StringsInert, NoMerge, AllWritten, Layout, TernaryOk, PrintTernary, WellFormed, EffectFree;
    hide Readable, NamesFree, Show, LexesTo;
    var e := EnrichTernary(t, ls);
    ProvenIff(e, gaps);
    LexedNames(ls, PrintTernary(t));
  }

  lemma LexedNames(ls: seq<Lexeme>, tokens: seq<Token>)
    requires LexesTo(ls, tokens)
    ensures NamesFree(ls)
  {
    hide NON_SCALAR_WORDS, SCALAR_PUNCTUATION;
    forall i | 0 <= i < |ls| && ls[i].WordLex?
      ensures ls[i].text !in NON_SCALAR_WORDS
    {
      assert Lex(ls[i]) == Some(tokens[i]);
    }
  }
}
