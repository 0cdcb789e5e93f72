/**
 * How an expression is written down: the spelling of each lexeme, the white space between them,
 * and which lexemes can stand next to one another in a tree of the richer language.
 */
module ScalarLayout {
  import opened Wrappers
  import opened ScalarGrammar
  import opened QuotedRegions
  import opened ScalarPurity
  import opened ScalarTokenizer

  // ----- how a lexeme is written -----

  predicate NumText(t: string) {
    |t| > 0 && IsDigit(t[0]) && NumberRun(t) == |t|
  }

  predicate WordText(t: string) {
    |t| > 0 && IsWordStart(t[0]) && (forall i :: 0 <= i < |t| ==> IsWordChar(t[i]))
  }

  /** From `i` on, the first unescaped `mark` is the last character. */
  predicate ClosesLast(t: string, i: nat, escaped: bool, mark: char)
    decreases |t| - i
  {
    if i >= |t| then false
    else if escaped then ClosesLast(t, i + 1, false, mark)
    else if t[i] == '\\' then ClosesLast(t, i + 1, true, mark)
    else if t[i] == mark then i == |t| - 1
    else ClosesLast(t, i + 1, false, mark)
  }

  predicate StrText(t: string) {
    |t| >= 2 && t[0] in {'\'', '"'} && ClosesLast(t, 1, false, t[0])
  }

  predicate PunctText(t: string) {
    t in SCALAR_PUNCTUATION || t in ASSIGNMENT_OPERATORS || t in UPDATE_OPERATORS || t in {"[", "]", ","}
  }

  /** The lexeme is spelled the way the language spells it, with no space at either end. */
  predicate Written(l: Lexeme) {
    |l.text| > 0 && !IsSpace(l.text[0]) && !IsSpace(l.text[|l.text| - 1]) &&
    match l
    case NumLex(t) => NumText(t)
    case StrLex(t) => StrText(t)
    case WordLex(t) => WordText(t)
    case PunctLex(t) => PunctText(t)
    case RegexLex(t) => |t| > 0 && t[0] == '/'
    case TemplateLex(t) => |t| > 0 && t[0] == '`'
  }

  // ----- layout -----

  predicate Blank(gap: string) {
    forall i :: 0 <= i < |gap| ==> IsSpace(gap[i])
  }

  predicate Wordlike(l: Lexeme) {
    l.NumLex? || l.WordLex?
  }

  /** Without white space between them the two would be read as one. */
  predicate Fuse(a: Lexeme, b: Lexeme) {
    (Wordlike(a) && Wordlike(b)) || (a.WordLex? && b.StrLex?)
  }

  /** Marks the scanner rejects when they are written against each other. */
  predicate Merge(a: Lexeme, b: Lexeme) {
    && a.PunctLex? && b.PunctLex?
    && ((a.text == ")" && b.text in {"==", "==="}) || (a.text == b.text && a.text in {"+", "-"}))
  }

  ghost predicate NoMerge(ls: seq<Lexeme>, gaps: seq<string>)
    requires |gaps| == |ls| + 1
  {
    forall i :: 0 < i < |ls| && Merge(ls[i - 1], ls[i]) ==> gaps[i] != ""
  }

  /** White space before each lexeme and after the last; needed only where two lexemes would fuse. */
  ghost predicate Layout(ls: seq<Lexeme>, gaps: seq<string>) {
    && |gaps| == |ls| + 1
    && (forall i :: 0 <= i < |gaps| ==> Blank(gaps[i]))
    && (forall i :: 0 < i < |ls| && Fuse(ls[i - 1], ls[i]) ==> gaps[i] != "")
  }

  function Show(ls: seq<Lexeme>, gaps: seq<string>): string
    requires |gaps| == |ls| + 1
  {
    if ls == [] then gaps[0] else gaps[0] + (ls[0].text + Show(ls[1..], gaps[1..]))
  }

  ghost predicate AllWritten(ls: seq<Lexeme>) {
    forall i :: 0 <= i < |ls| ==> Written(ls[i])
  }

  lemma LayoutTail(ls: seq<Lexeme>, gaps: seq<string>)
    requires Layout(ls, gaps) && ls != []
    ensures Layout(ls[1..], gaps[1..])
  {
    hide Blank, Fuse;
    forall i | 0 < i < |ls[1..]| && Fuse(ls[1..][i - 1], ls[1..][i])
      ensures gaps[1..][i] != ""
    {
      assert ls[1..][i - 1] == ls[i + 1 - 1] && ls[1..][i] == ls[i + 1];
    }
  }

  // ----- which lexemes are neighbours -----

  /** Punctuation an operand may begin with. */
  predicate Opener(t: string) {
    t in {"(", "!", "-", "+", "~", "++", "--"}
  }

  /** Punctuation an operand may end with. */
  predicate Closer(t: string) {
    t in {")", "]", "++", "--"}
  }

  predicate Opens(l: Lexeme) {
    !l.PunctLex? || Opener(l.text)
  }

  predicate Closes(l: Lexeme) {
    !l.PunctLex? || Closer(l.text)
  }

  /** What any two neighbours in an expression satisfy. */
  ghost predicate Follows(a: Lexeme, b: Lexeme) {
    && (b.RegexLex? && Lex(a).Some? ==> !OperandEnd(Lex(a).value))
    && (a.PunctLex? || b.PunctLex? || a.WordLex?)
    && (a.PunctLex? && !Closer(a.text) ==> Opens(b) || b.text == ")")
    && (a == PunctLex(".") ==> b.WordLex?)
    && (b == PunctLex("/") ==> Closes(a))
  }

  ghost predicate Placed(ls: seq<Lexeme>) {
    forall i :: 0 < i < |ls| ==> Follows(ls[i - 1], ls[i])
  }

  /** What may come after an opening mark: an operand, or the closing parenthesis of a call. */
  ghost predicate Trails(ls: seq<Lexeme>) {
    && ls != [] && Placed(ls)
    && Closes(ls[|ls| - 1])
    && (Opens(ls[0]) || ls[0] == PunctLex(")"))
  }

  ghost predicate Settled(ls: seq<Lexeme>) {
    Trails(ls) && Opens(ls[0])
  }

  lemma PlacedConcat(a: seq<Lexeme>, b: seq<Lexeme>)
    requires Placed(a) && Placed(b) && a != [] && b != [] && Follows(a[|a| - 1], b[0])
    ensures Placed(a + b)
  {
    hide Follows;
    var all := a + b;
    forall i | 0 < i < |all|
      ensures Follows(all[i - 1], all[i])
    {
      if i < |a| {
        assert all[i - 1] == a[i - 1] && all[i] == a[i];
      } else if i > |a| {
        assert all[i - 1] == b[i - |a| - 1] && all[i] == b[i - |a|];
      }
    }
  }

  lemma PlacedTail(ls: seq<Lexeme>)
    requires Placed(ls) && ls != []
    ensures Placed(ls[1..])
  {
    hide Follows;
    forall i | 0 < i < |ls[1..]|
      ensures Follows(ls[1..][i - 1], ls[1..][i])
    {
      assert ls[1..][i - 1] == ls[i + 1 - 1] && ls[1..][i] == ls[i + 1];
    }
  }

  /** A mark that an operand may follow. */
  predicate Leads(mark: Lexeme) {
    if mark.PunctLex? then mark.text != ")" && mark.text != "."
    else mark.WordLex? && mark.text in WORD_OPERATORS
  }

  lemma LeadsTo(mark: Lexeme, b: Lexeme)
    requires Leads(mark) && (Opens(b) || (mark.PunctLex? && b == PunctLex(")")))
    ensures Follows(mark, b)
  {
    hide WORD_OPERATORS, SCALAR_PUNCTUATION, NON_SCALAR_WORDS, Closer;
    EffectMarksUnlexed();
  }

  lemma MarkAfter(a: Lexeme, mark: Lexeme)
    requires Closes(a) && mark.PunctLex?
    ensures Follows(a, mark)
  {
    hide Lex;
  }

  lemma PrefixSettled(mark: Lexeme, b: seq<Lexeme>)
    requires Leads(mark) && Opens(mark) && Settled(b)
    ensures Settled([mark] + b)
  {
    hide Follows, Leads, Opens, Closes;
    LeadsTo(mark, b[0]);
    PlacedConcat([mark], b);
  }

  lemma SuffixTrails(a: seq<Lexeme>, suffix: seq<Lexeme>)
    requires Trails(a) && suffix != [] && Placed(suffix) && suffix[0].PunctLex? && Closes(suffix[|suffix| - 1])
    ensures Trails(a + suffix) && (Settled(a) ==> Settled(a + suffix))
  {
    hide Follows, Opens, Closes;
    MarkAfter(a[|a| - 1], suffix[0]);
    PlacedConcat(a, suffix);
  }

  lemma InfixSettled(a: seq<Lexeme>, mark: Lexeme, b: seq<Lexeme>)
    requires Settled(a) && mark.PunctLex? && Leads(mark) && Trails(b)
    ensures Settled(a + [mark] + b)
  {
    hide Follows, Leads, Opens, Closes;
    MarkAfter(a[|a| - 1], mark);
    PlacedConcat(a, [mark]);
    LeadsTo(mark, b[0]);
    PlacedConcat(a + [mark], b);
  }

  lemma OperatorLeads(op: string)
    requires op in BINARY_OPERATORS || op in UNARY_OPERATORS || op in ASSIGNMENT_OPERATORS || op in UPDATE_OPERATORS
    ensures Leads(PunctLex(op))
    ensures op in UNARY_OPERATORS || op in UPDATE_OPERATORS ==> Opener(op)
    ensures op in UPDATE_OPERATORS ==> Closer(op)
  {
  }

  /** The neighbours in the lexemes of an expression, and its first and last lexeme. */
  lemma {:induction false} RichSettled(e: Rich)
    requires WellFormed(e)
    ensures Settled(Lexemes(e))
    decreases |Lexemes(e)|, e
  {
    hide Follows, Placed, BINARY_OPERATORS, UNARY_OPERATORS, ASSIGNMENT_OPERATORS, UPDATE_OPERATORS, WORD_OPERATORS;
    SinglesPlaced();
    match e
    case Parens(inner) =>
      RichSettled(inner);
      PrefixSettled(PunctLex("("), Lexemes(inner));
      SuffixTrails([PunctLex("(")] + Lexemes(inner), [PunctLex(")")]);
    case UnaryOp(op, inner) =>
      OperatorLeads(op);
      RichSettled(inner);
      PrefixSettled(PunctLex(op), Lexemes(inner));
    case BinaryOp(l, op, r) => OperatorLeads(op); InfixRich(l, PunctLex(op), r);
    case Conditional(c, y, n) =>
      RichSettled(c);
      InfixRich(y, PunctLex(":"), n);
      InfixSettled(Lexemes(c), PunctLex("?"), Lexemes(y) + [PunctLex(":")] + Lexemes(n));
    case Member(inner, property) =>
      RichSettled(inner);
      PairPlaced(property);
      SuffixTrails(Lexemes(inner), [PunctLex("."), WordLex(property)]);
    case Assign(t, op, v) => OperatorLeads(op); InfixRich(t, PunctLex(op), v);
    case Update(op, prefix, inner) =>
      OperatorLeads(op);
      RichSettled(inner);
      if prefix {
        PrefixSettled(PunctLex(op), Lexemes(inner));
      } else {
        SuffixTrails(Lexemes(inner), [PunctLex(op)]);
      }
    case Call(f, args) =>
      RichSettled(f);
      ArgsTrail(args);
      InfixSettled(Lexemes(f), PunctLex("("), ArgLexemes(args));
    case Index(inner, i) =>
      RichSettled(inner);
      RichSettled(i);
      SuffixTrails(Lexemes(i), [PunctLex("]")]);
      InfixSettled(Lexemes(inner), PunctLex("["), Lexemes(i) + [PunctLex("]")]);
    case WordOp(w, inner) =>
      RichSettled(inner);
      PrefixSettled(WordLex(w), Lexemes(inner));
    case Sequence(l, r) => InfixRich(l, PunctLex(","), r);
    case _ =>
  }

  lemma {:induction false} InfixRich(l: Rich, mark: Lexeme, r: Rich)
    requires WellFormed(l) && WellFormed(r) && mark.PunctLex? && Leads(mark)
    ensures Settled(Lexemes(l) + [mark] + Lexemes(r))
    decreases |Lexemes(l)| + |Lexemes(r)|
  {
    hide Follows, Placed, Leads, Opens, Closes;
    RichSettled(l);
    RichSettled(r);
    InfixSettled(Lexemes(l), mark, Lexemes(r));
  }

  lemma {:induction false} ArgsTrail(args: Args)
    requires WellFormedArgs(args)
    ensures Trails(ArgLexemes(args))
    decreases |ArgLexemes(args)|, args
  {
    hide Follows, Placed;
    SinglesPlaced();
    match args
    case NoArgs =>
    case MoreArgs(h, t) =>
      RichSettled(h);
      ArgsTrail(t);
      InfixSettled(Lexemes(h), PunctLex(","), ArgLexemes(t));
  }

  lemma SinglesPlaced()
    ensures forall l :: Placed([l])
  {
  }

  lemma PairPlaced(property: string)
    ensures Placed([PunctLex("."), WordLex(property)])
  {
    hide Lex;
  }

  // ----- what the text after a lexeme begins with -----

  /** Characters that could continue an operator of the vocabulary. */
  predicate Continuing(c: char) {
    c in {'=', '<', '>', '&', '|', '?', '*'}
  }

  predicate Mark(c: char) {
    c == '\'' || c == '"'
  }

  /** `v` does not continue the number or word before it. */
  predicate WordEnds(v: string) {
    v == "" || (!IsWordChar(v[0]) && !Mark(v[0]))
  }

  predicate NumberEnds(v: string) {
    WordEnds(v) && (|v| >= 2 && v[0] == '.' ==> !IsDigit(v[1]))
  }

  predicate StringEnds(v: string) {
    v == "" || !IsQuote(v[0])
  }

  predicate MarkEnds(t: string, v: string) {
    Closer(t) || v == "" || !Continuing(v[0])
  }

  /** The lexeme is over where the text `v` begins. */
  predicate Stops(l: Lexeme, v: string) {
    match l
    case NumLex(_) => NumberEnds(v)
    case WordLex(_) => WordEnds(v)
    case StrLex(_) => StringEnds(v)
    case PunctLex(t) => MarkEnds(t, v)
    case _ => true
  }

  lemma BlankStops(l: Lexeme, v: string)
    requires v == "" || IsSpace(v[0])
    ensures Stops(l, v)
  {
    hide Closer;
  }

  predicate PunctStart(c: char) {
    !IsSpace(c) && !IsQuote(c) && !IsDigit(c) && !IsWordStart(c)
  }

  lemma PunctTextStart(t: string)
    requires PunctText(t)
    ensures |t| > 0 && PunctStart(t[0]) && (t[0] == '.' ==> t == ".")
    ensures !IsLetter(t[|t| - 1])
  {
  }

  /** Two neighbours written without white space. */
  lemma NeighbourStops(a: Lexeme, b: Lexeme, v: string)
    requires Written(b) && Follows(a, b) && !Fuse(a, b)
    requires b == PunctLex(".") && v != "" ==> !IsDigit(v[0])
    ensures Stops(a, b.text + v)
  {
    hide Lex, IsSpace, NumText, StrText, PunctText, Closer;
    WrittenStart(b);
    var u := b.text + v;
    assert u[0] == b.text[0];
    if a.NumLex? && u[0] == '.' {
      assert b == PunctLex(".");
      assert v != "" ==> u[1] == v[0];
    }
  }

  lemma WrittenStart(b: Lexeme)
    requires Written(b)
    ensures |b.text| > 0
    ensures b.NumLex? ==> IsDigit(b.text[0])
    ensures b.WordLex? ==> IsWordStart(b.text[0])
    ensures b.StrLex? ==> Mark(b.text[0])
    ensures b.PunctLex? ==> PunctStart(b.text[0]) && (b.text[0] == '.' ==> b.text == ".")
    ensures b.PunctLex? && Opener(b.text) ==> !Continuing(b.text[0])
    ensures b.PunctLex? && b.text == ")" ==> !Continuing(b.text[0])
    ensures b.RegexLex? ==> b.text[0] == '/'
    ensures b.TemplateLex? ==> b.text[0] == '`'
  {
    hide IsSpace, PunctStart, NumberRun, ClosesLast, PunctText;
    if b.PunctLex? {
      PunctTextStart(b.text);
    }
  }

  /** In any layout a lexeme is over where the white space or the next lexeme begins. */
  lemma LexemeStops(ls: seq<Lexeme>, gaps: seq<string>)
    requires ls != [] && Layout(ls, gaps) && AllWritten(ls) && Placed(ls)
    ensures Stops(ls[0], Show(ls[1..], gaps[1..]))
  {
    hide Follows, Fuse, Stops, Written, IsSpace;
    var v := Show(ls[1..], gaps[1..]);
    assert Blank(gaps[1]);
    if gaps[1] != "" || |ls| == 1 {
      assert v != "" ==> v[0] == gaps[1][0];
      BlankStops(ls[0], v);
    } else {
      var w := Show(ls[2..], gaps[2..]);
      assert ls[1..][1..] == ls[2..] && gaps[1..][1..] == gaps[2..];
      assert v == ls[1].text + w;
      assert Follows(ls[1 - 1], ls[1]);
      if ls[1] == PunctLex(".") {
        AfterDot(ls, gaps);
      }
      NeighbourStops(ls[0], ls[1], w);
    }
  }

  lemma AfterDot(ls: seq<Lexeme>, gaps: seq<string>)
    requires |ls| > 1 && Layout(ls, gaps) && AllWritten(ls) && Placed(ls) && ls[1] == PunctLex(".")
    ensures var w := Show(ls[2..], gaps[2..]); w != "" ==> !IsDigit(w[0])
  {
    hide Lex, Fuse, Closer, Written;
    var w := Show(ls[2..], gaps[2..]);
    assert Blank(gaps[2]);
    if |ls| > 2 {
      assert Follows(ls[2 - 1], ls[2]);
      WrittenStart(ls[2]);
    }
  }
}
