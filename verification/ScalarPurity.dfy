/**
 * Why acceptance means purity. `Rich` is a language with everything the scalar grammar leaves out:
 * assignment, update, calls, indexing, arbitrary property reads, word operators, regular
 * expressions, templates and sequences. A rich expression whose lexemes all belong to the closed
 * vocabulary and whose token list is accepted contains none of them, so running it changes nothing.
 */
module ScalarPurity {
  import opened Wrappers
  import opened ScalarGrammar

  // ----- lexemes -----

  datatype Lexeme =
    | NumLex(text: string)
    | StrLex(text: string)
    | WordLex(text: string)
    | PunctLex(text: string)
    | RegexLex(text: string)
    | TemplateLex(text: string)

  const SCALAR_PUNCTUATION: set<string> := {
    ">>>", "===", "!==", "**", "==", "!=", "<=", ">=", "&&", "||", "??", "<<", ">>", "(", ")", "?",
    ":", ".", "+", "-", "*", "/", "%", "<", ">", "!", "~", "&", "|", "^"
  }

  const NON_SCALAR_WORDS: set<string> := {
    "yield", "await", "delete", "new", "void", "typeof", "function", "class", "in", "instanceof", "of",
    "throw", "return", "import", "export", "this", "super", "arguments", "let", "const", "var", "if",
    "else", "while", "for", "do", "switch", "case", "try", "catch", "finally", "with", "debugger",
    "async", "static", "get", "set"
  }

  /** The token of a lexeme, if the closed vocabulary has one for it. */
  function Lex(l: Lexeme): Option<Token> {
    match l
    case NumLex(_) => Some(Number)
    case StrLex(_) => Some(Text)
    case WordLex(w) => if w in NON_SCALAR_WORDS then None else Some(Ident(w))
    case PunctLex(p) => if p in SCALAR_PUNCTUATION then Some(Punct(p)) else None
    case RegexLex(_) => None
    case TemplateLex(_) => None
  }

  /** `tokens` is `lexemes`, token by token. */
  ghost predicate LexesTo(lexemes: seq<Lexeme>, tokens: seq<Token>) {
    && |lexemes| == |tokens|
    && (forall i :: 0 <= i < |lexemes| ==> Lex(lexemes[i]) == Some(tokens[i]))
  }

  // ----- the richer language -----

  datatype Rich =
    | NumLit(text: string)
    | StrLit(text: string)
    | RegexLit(text: string)
    | Template(text: string)
    | Name(word: string)
    | Parens(e: Rich)
    | UnaryOp(op: string, e: Rich)
    | BinaryOp(left: Rich, op: string, right: Rich)
    | Conditional(test: Rich, yes: Rich, no: Rich)
    | Member(e: Rich, property: string)
    | Assign(target: Rich, op: string, value: Rich)
    | Update(op: string, prefix: bool, e: Rich)
    | Call(callee: Rich, args: Args)
    | Index(e: Rich, index: Rich)
    | WordOp(word: string, e: Rich)
    | Sequence(left: Rich, right: Rich)

  datatype Args = NoArgs | MoreArgs(head: Rich, tail: Args)

  const ASSIGNMENT_OPERATORS: set<string> := {
    "=", "+=", "-=", "*=", "/=", "%=", "**=", "<<=", ">>=", ">>>=", "&=", "|=", "^=", "&&=", "||=", "??="
  }

  const UPDATE_OPERATORS: set<string> := {"++", "--"}

  const WORD_OPERATORS: set<string> := {"yield", "await", "delete", "new", "void", "typeof", "throw"}

  predicate WellFormed(e: Rich) {
    match e
    case NumLit(_) => true
    case StrLit(_) => true
    case RegexLit(_) => true
    case Template(_) => true
    case Name(_) => true
    case Parens(e) => WellFormed(e)
    case UnaryOp(op, e) => op in UNARY_OPERATORS && WellFormed(e)
    case BinaryOp(l, op, r) => op in BINARY_OPERATORS && WellFormed(l) && WellFormed(r)
    case Conditional(c, a, b) => WellFormed(c) && WellFormed(a) && WellFormed(b)
    case Member(e, _) => WellFormed(e)
    case Assign(t, op, v) => op in ASSIGNMENT_OPERATORS && WellFormed(t) && WellFormed(v)
    case Update(op, _, e) => op in UPDATE_OPERATORS && WellFormed(e)
    case Call(f, args) => WellFormed(f) && WellFormedArgs(args)
    case Index(e, i) => WellFormed(e) && WellFormed(i)
    case WordOp(w, e) => w in WORD_OPERATORS && WellFormed(e)
    case Sequence(l, r) => WellFormed(l) && WellFormed(r)
  }

  predicate WellFormedArgs(args: Args) {
    match args
    case NoArgs => true
    case MoreArgs(h, t) => WellFormed(h) && WellFormedArgs(t)
  }

  /** The lexemes of an expression, in order, with no parentheses added. */
  function Lexemes(e: Rich): (ls: seq<Lexeme>)
    ensures |ls| > 0
  {
    match e
    case NumLit(text) => [NumLex(text)]
    case StrLit(text) => [StrLex(text)]
    case RegexLit(text) => [RegexLex(text)]
    case Template(text) => [TemplateLex(text)]
    case Name(w) => [WordLex(w)]
    case Parens(e) => [PunctLex("(")] + Lexemes(e) + [PunctLex(")")]
    case UnaryOp(op, e) => [PunctLex(op)] + Lexemes(e)
    case BinaryOp(l, op, r) => Lexemes(l) + [PunctLex(op)] + Lexemes(r)
    case Conditional(c, a, b) => Lexemes(c) + [PunctLex("?")] + (Lexemes(a) + [PunctLex(":")] + Lexemes(b))
    case Member(e, property) => Lexemes(e) + [PunctLex("."), WordLex(property)]
    case Assign(t, op, v) => Lexemes(t) + [PunctLex(op)] + Lexemes(v)
    case Update(op, prefix, e) => if prefix then [PunctLex(op)] + Lexemes(e) else Lexemes(e) + [PunctLex(op)]
    case Call(f, args) => Lexemes(f) + [PunctLex("(")] + ArgLexemes(args)
    case Index(e, i) => Lexemes(e) + [PunctLex("[")] + (Lexemes(i) + [PunctLex("]")])
    case WordOp(w, e) => [WordLex(w)] + Lexemes(e)
    case Sequence(l, r) => Lexemes(l) + [PunctLex(",")] + Lexemes(r)
  }

  /** The arguments and the closing parenthesis. */
  function ArgLexemes(args: Args): (ls: seq<Lexeme>)
    ensures |ls| > 0
  {
    match args
    case NoArgs => [PunctLex(")")]
    case MoreArgs(h, t) => Lexemes(h) + [PunctLex(",")] + ArgLexemes(t)
  }

  /** No node that stores, calls, or runs code the bounded contract does not model. */
  predicate EffectFree(e: Rich) {
    match e
    case NumLit(_) => true
    case StrLit(_) => true
    case Name(_) => true
    case Parens(e) => EffectFree(e)
    case UnaryOp(_, e) => EffectFree(e)
    case BinaryOp(l, _, r) => EffectFree(l) && EffectFree(r)
    case Conditional(c, a, b) => EffectFree(c) && EffectFree(a) && EffectFree(b)
    case Member(e, property) => Observation(property) && EffectFree(e)
    case _ => false
  }

  // ----- what accepted token lists look like -----

  predicate OperandEnd(t: Token) {
    !t.Punct? || t.value == ")"
  }

  predicate OperandStart(t: Token) {
    !t.Punct? || t.value == "("
  }

  /** No operand is directly followed by a parenthesis or another operand: no call, no juxtaposition. */
  ghost predicate NoJuxtaposition(tokens: seq<Token>) {
    forall i :: 0 <= i < |tokens| - 1 && OperandEnd(tokens[i]) ==> !OperandStart(tokens[i + 1])
  }

  ghost predicate DotsObserve(tokens: seq<Token>) {
    forall i :: 0 <= i < |tokens| && tokens[i] == Punct(".") ==>
      i + 1 < |tokens| && tokens[i + 1].Ident? && Observation(tokens[i + 1].value)
  }

  ghost predicate Sane(tokens: seq<Token>) {
    && |tokens| > 0 && OperandEnd(tokens[|tokens| - 1])
    && NoJuxtaposition(tokens)
    && DotsObserve(tokens)
  }

  lemma SaneJoin(a: seq<Token>, op: string, b: seq<Token>)
    requires Sane(a) && Sane(b) && op !in {"(", ")", "."}
    ensures Sane(a + [Punct(op)] + b)
  {
    var all := a + [Punct(op)] + b;
    forall i | 0 <= i < |all| && all[i] == Punct(".")
      ensures i + 1 < |all| && all[i + 1].Ident? && Observation(all[i + 1].value)
    {
      if i < |a| {
        assert a[i] == Punct(".");
      } else {
        assert b[i - |a| - 1] == Punct(".") && all[i + 1] == b[i - |a|];
      }
    }
    forall i | 0 <= i < |all| - 1 && OperandEnd(all[i])
      ensures !OperandStart(all[i + 1])
    {
      if i > |a| {
        assert all[i] == b[i - |a| - 1] && all[i + 1] == b[i - |a|];
      }
    }
  }

  lemma SanePrefix(op: string, b: seq<Token>)
    requires Sane(b) && op !in {")", "."}
    ensures var all := [Punct(op)] + b; NoJuxtaposition(all) && DotsObserve(all) && OperandEnd(all[|all| - 1])
  {
    var all := [Punct(op)] + b;
    forall i | 0 <= i < |all| && all[i] == Punct(".")
      ensures i + 1 < |all| && all[i + 1].Ident? && Observation(all[i + 1].value)
    {
      assert b[i - 1] == Punct(".") && all[i + 1] == b[i];
    }
    forall i | 0 <= i < |all| - 1 && OperandEnd(all[i])
      ensures !OperandStart(all[i + 1])
    {
      assert all[i] == b[i - 1] && all[i + 1] == b[i];
    }
  }

  lemma {:induction false} ObservationsSane(w: string, obs: seq<string>)
    requires forall i :: 0 <= i < |obs| ==> Observation(obs[i])
    ensures Sane([Ident(w)] + PrintObservations(obs))
    decreases obs
  {
    if obs != [] {
      ObservationsSane(obs[0], obs[1..]);
      var tail := [Ident(obs[0])] + PrintObservations(obs[1..]);
      var all := [Ident(w)] + PrintObservations(obs);
      assert all == [Ident(w), Punct(".")] + tail;
      forall i | 0 <= i < |all| && all[i] == Punct(".")
        ensures i + 1 < |all| && all[i + 1].Ident? && Observation(all[i + 1].value)
      {
        if i > 1 {
          assert tail[i - 2] == Punct(".") && all[i + 1] == tail[i - 1];
        }
      }
      forall i | 0 <= i < |all| - 1 && OperandEnd(all[i])
        ensures !OperandStart(all[i + 1])
      {
        if i > 1 {
          assert all[i] == tail[i - 2] && all[i + 1] == tail[i - 1];
        }
      }
    }
  }

  lemma ParenSane(inner: seq<Token>)
    requires Sane(inner)
    ensures Sane([Punct("(")] + inner + [Punct(")")])
  {
    var all := [Punct("(")] + inner + [Punct(")")];
    forall i | 0 <= i < |all| && all[i] == Punct(".")
      ensures i + 1 < |all| && all[i + 1].Ident? && Observation(all[i + 1].value)
    {
      assert inner[i - 1] == Punct(".") && all[i + 1] == inner[i];
    }
    forall i | 0 <= i < |all| - 1 && OperandEnd(all[i])
      ensures !OperandStart(all[i + 1])
    {
      if i < |inner| {
        assert all[i] == inner[i - 1] && all[i + 1] == inner[i];
      }
    }
  }

  lemma {:induction false} PrimarySane(p: Primary)
    requires PrimaryOk(p)
    ensures Sane(PrintPrimary(p))
    decreases p
  {
    match p
    case NumberLit =>
    case TextLit =>
    case Word(w, obs) => ObservationsSane(w, obs);
    case Paren(inner) =>
      TernarySane(inner);
      ParenSane(PrintTernary(inner));
  }

  lemma {:induction false} UnarySane(u: Unary)
    requires UnaryOk(u)
    ensures Sane(PrintUnary(u))
    decreases u
  {
    match u
    case Prefixed(op, operand) =>
      UnarySane(operand);
      SanePrefix(op, PrintUnary(operand));
    case Plain(p) =>
      PrimarySane(p);
  }

  lemma {:induction false} BinarySane(b: Binary)
    requires BinaryOk(b)
    ensures Sane(PrintBinary(b))
    decreases b
  {
    match b
    case Single(u) =>
      UnarySane(u);
    case Chain(u, op, rest) =>
      UnarySane(u);
      BinarySane(rest);
      SaneJoin(PrintUnary(u), op, PrintBinary(rest));
  }

  lemma {:induction false} TernarySane(t: Ternary)
    requires TernaryOk(t)
    ensures Sane(PrintTernary(t))
    decreases t
  {
    match t
    case Flat(b) =>
      BinarySane(b);
    case Choice(c, yes, no) =>
      BinarySane(c);
      TernarySane(yes);
      TernarySane(no);
      SaneJoin(PrintBinary(c), "?", PrintTernary(yes));
      SaneJoin(PrintBinary(c) + [Punct("?")] + PrintTernary(yes), ":", PrintTernary(no));
  }

  /** An accepted list has no call, no juxtaposed operands, and no property read but an observation. */
  lemma AcceptedIsSane(tokens: seq<Token>)
    requires Accepts(tokens)
    ensures Sane(tokens)
  {
    AcceptsIffDerivable(tokens);
    var t :| TernaryOk(t) && PrintTernary(t) == tokens;
    TernarySane(t);
  }

  // ----- from tokens back to the richer language -----

  ghost predicate At(all: seq<Lexeme>, k: nat, part: seq<Lexeme>) {
    && k + |part| <= |all|
    && (forall i :: 0 <= i < |part| ==> all[k + i] == part[i])
  }

  lemma AtConcat(all: seq<Lexeme>, k: nat, a: seq<Lexeme>, b: seq<Lexeme>)
    requires At(all, k, a + b)
    ensures At(all, k, a) && At(all, k + |a|, b)
  {
    forall i | 0 <= i < |a|
      ensures all[k + i] == a[i]
    {
      assert (a + b)[i] == a[i];
    }
    forall i | 0 <= i < |b|
      ensures all[k + |a| + i] == b[i]
    {
      assert (a + b)[|a| + i] == b[i];
    }
  }

  /** Punctuation of the vocabulary that ends in `=` is a comparison; none is an update operator. */
  lemma PunctuationShape(p: string)
    requires p in SCALAR_PUNCTUATION
    ensures 1 <= |p| <= 3 && p != "[" && p != ","
    ensures p[|p| - 1] == '=' ==> |p| >= 2 && p[0] in {'=', '!', '<', '>'} && (|p| == 3 ==> p[1] == '=')
    ensures p[|p| - 1] == '=' && |p| == 3 ==> p[0] in {'=', '!'}
    ensures |p| == 2 && p[0] == p[1] ==> p[0] != '+' && p[0] != '-'
  {
  }

  lemma AssignmentShape(p: string)
    requires p in ASSIGNMENT_OPERATORS
    ensures 1 <= |p| && p[|p| - 1] == '='
    ensures |p| == 2 ==> p[0] !in {'=', '!', '<', '>'}
    ensures |p| == 3 ==> p[1] != '='
  {
  }

  /** The marks of the effectful forms are outside the vocabulary. */
  lemma EffectMarksUnlexed()
    ensures forall op :: op in ASSIGNMENT_OPERATORS ==> Lex(PunctLex(op)).None?
    ensures forall op :: op in UPDATE_OPERATORS ==> Lex(PunctLex(op)).None?
    ensures forall w :: w in WORD_OPERATORS ==> Lex(WordLex(w)).None?
    ensures Lex(PunctLex("[")).None? && Lex(PunctLex(",")).None?
  {
    hide SCALAR_PUNCTUATION, ASSIGNMENT_OPERATORS;
    forall op | op in ASSIGNMENT_OPERATORS
      ensures Lex(PunctLex(op)).None?
    {
      AssignmentShape(op);
      if op in SCALAR_PUNCTUATION {
        PunctuationShape(op);
      }
    }
    forall op | op in UPDATE_OPERATORS || op == "[" || op == ","
      ensures Lex(PunctLex(op)).None?
    {
      if op in SCALAR_PUNCTUATION {
        PunctuationShape(op);
      }
    }
  }

  ghost predicate Accepted(all: seq<Lexeme>, tokens: seq<Token>) {
    LexesTo(all, tokens) && Sane(tokens)
  }

  lemma LexShape(l: Lexeme, t: Token)
    requires Lex(l) == Some(t)
    ensures !l.RegexLex? && !l.TemplateLex?
    ensures l.PunctLex? ==> t == Punct(l.text)
    ensures l.WordLex? ==> t == Ident(l.text)
    ensures l.NumLex? || l.StrLex? ==> !t.Punct?
  {
    hide SCALAR_PUNCTUATION, NON_SCALAR_WORDS;
  }

  /** A single lexeme between two parts: it must be in the vocabulary. */
  lemma Middle(all: seq<Lexeme>, tokens: seq<Token>, k: nat, a: seq<Lexeme>, mid: Lexeme, b: seq<Lexeme>)
    requires LexesTo(all, tokens) && At(all, k, a + [mid] + b)
    ensures At(all, k, a) && At(all, k + |a| + 1, b)
    ensures k + |a| < |tokens| && Lex(mid) == Some(tokens[k + |a|])
  {
    hide Lex;
    AtConcat(all, k, a + [mid], b);
    AtConcat(all, k, a, [mid]);
    assert all[k + |a| + 0] == [mid][0];
    LexShape(mid, tokens[k + |a|]);
  }

  lemma DotAt(all: seq<Lexeme>, tokens: seq<Token>, j: nat, property: string)
    requires Accepted(all, tokens) && At(all, j, [PunctLex("."), WordLex(property)])
    ensures Observation(property) && OperandEnd(tokens[j + 1])
  {
    hide Lex;
    var part := [PunctLex("."), WordLex(property)];
    assert all[j + 0] == part[0] && all[j + 1] == part[1];
    LexShape(PunctLex("."), tokens[j]);
    LexShape(WordLex(property), tokens[j + 1]);
  }

  lemma NotCalled(tokens: seq<Token>, j: nat)
    requires Sane(tokens) && 0 < j < |tokens| && OperandEnd(tokens[j - 1])
    ensures tokens[j] != Punct("(")
  {
    assert !OperandStart(tokens[j - 1 + 1]);
  }

  /** What an expression at position `k` of an accepted list satisfies. */
  ghost predicate Harmless(e: Rich, tokens: seq<Token>, k: nat) {
    && EffectFree(e)
    && k + |Lexemes(e)| <= |tokens|
    && OperandEnd(tokens[k + |Lexemes(e)| - 1])
  }

  /** `left mid right`: neither side is lost, and `mid` is in the vocabulary. */
  lemma {:induction false} InfixAt(left: Rich, mid: Lexeme, right: Rich, all: seq<Lexeme>, tokens: seq<Token>, k: nat)
    requires Accepted(all, tokens) && WellFormed(left) && WellFormed(right)
    requires At(all, k, Lexemes(left) + [mid] + Lexemes(right))
    ensures Lex(mid).Some? && Harmless(left, tokens, k) && Harmless(right, tokens, k + |Lexemes(left)| + 1)
    decreases |Lexemes(left)| + |Lexemes(right)|
  {
    hide Lex, Sane, WellFormed, Lexemes, EffectFree;
    Middle(all, tokens, k, Lexemes(left), mid, Lexemes(right));
    EffectFreeAt(left, all, tokens, k);
    EffectFreeAt(right, all, tokens, k + |Lexemes(left)| + 1);
  }

  /** The forms whose own mark is outside the vocabulary. */
  predicate Marked(e: Rich) {
    e.RegexLit? || e.Template? || e.Assign? || e.Update? || e.Index? || e.WordOp? || e.Sequence?
  }

  lemma MarkOf(e: Rich) returns (i: nat)
    requires WellFormed(e) && Marked(e)
    ensures i < |Lexemes(e)| && Lex(Lexemes(e)[i]).None?
  {
    hide SCALAR_PUNCTUATION, NON_SCALAR_WORDS, ASSIGNMENT_OPERATORS, UPDATE_OPERATORS, WORD_OPERATORS;
    EffectMarksUnlexed();
    i := 0;
    match e
    case Assign(t, _, _) => i := |Lexemes(t)|;
    case Update(_, prefix, inner) => i := if prefix then 0 else |Lexemes(inner)|;
    case Index(inner, _) => i := |Lexemes(inner)|;
    case Sequence(l, _) => i := |Lexemes(l)|;
    case _ =>
  }

  lemma PartLexes(all: seq<Lexeme>, tokens: seq<Token>, k: nat, part: seq<Lexeme>, i: nat)
    requires LexesTo(all, tokens) && At(all, k, part) && i < |part|
    ensures Lex(part[i]) == Some(tokens[k + i])
  {
    hide Lex;
    assert all[k + i] == part[i];
  }

  lemma NotMarkedAt(e: Rich, all: seq<Lexeme>, tokens: seq<Token>, k: nat)
    requires LexesTo(all, tokens) && WellFormed(e) && At(all, k, Lexemes(e))
    ensures !Marked(e)
  {
    hide Lex;
    if Marked(e) {
      var i := MarkOf(e);
      PartLexes(all, tokens, k, Lexemes(e), i);
    }
  }

  lemma LeafAt(e: Rich, all: seq<Lexeme>, tokens: seq<Token>, k: nat)
    requires LexesTo(all, tokens) && At(all, k, Lexemes(e)) && (e.NumLit? || e.StrLit? || e.Name?)
    ensures Harmless(e, tokens, k)
  {
    hide Lex;
    PartLexes(all, tokens, k, Lexemes(e), 0);
    LexShape(Lexemes(e)[0], tokens[k]);
  }

  lemma {:induction false} ParensAt(inner: Rich, all: seq<Lexeme>, tokens: seq<Token>, k: nat)
    requires Accepted(all, tokens) && WellFormed(inner) && At(all, k, Lexemes(Parens(inner)))
    ensures Harmless(Parens(inner), tokens, k)
    decreases |Lexemes(inner)| + 1
  {
    hide Lex, Sane;
    var body := [PunctLex("(")] + Lexemes(inner);
    AtConcat(all, k, body, [PunctLex(")")]);
    PartLexes(all, tokens, k + |body|, [PunctLex(")")], 0);
    LexShape(PunctLex(")"), tokens[k + |body|]);
    AtConcat(all, k, [PunctLex("(")], Lexemes(inner));
    EffectFreeAt(inner, all, tokens, k + 1);
  }

  lemma {:induction false} MemberAt(inner: Rich, property: string, all: seq<Lexeme>, tokens: seq<Token>, k: nat)
    requires Accepted(all, tokens) && WellFormed(inner) && At(all, k, Lexemes(Member(inner, property)))
    ensures Harmless(Member(inner, property), tokens, k)
    decreases |Lexemes(inner)| + 1
  {
    hide Lex, Sane;
    AtConcat(all, k, Lexemes(inner), [PunctLex("."), WordLex(property)]);
    EffectFreeAt(inner, all, tokens, k);
    DotAt(all, tokens, k + |Lexemes(inner)|, property);
  }

  lemma {:induction false} ConditionalAt(c: Rich, y: Rich, n: Rich, all: seq<Lexeme>, tokens: seq<Token>, k: nat)
    requires Accepted(all, tokens) && WellFormed(Conditional(c, y, n)) && At(all, k, Lexemes(Conditional(c, y, n)))
    ensures Harmless(Conditional(c, y, n), tokens, k)
    decreases |Lexemes(c)| + |Lexemes(y)| + |Lexemes(n)|
  {
    hide Lex, Sane, BINARY_OPERATORS, UNARY_OPERATORS;
    Middle(all, tokens, k, Lexemes(c), PunctLex("?"), Lexemes(y) + [PunctLex(":")] + Lexemes(n));
    EffectFreeAt(c, all, tokens, k);
    InfixAt(y, PunctLex(":"), n, all, tokens, k + |Lexemes(c)| + 1);
  }

  /** No call sits inside an accepted list. */
  lemma {:induction false} NoCallAt(f: Rich, args: Args, all: seq<Lexeme>, tokens: seq<Token>, k: nat)
    requires Accepted(all, tokens) && WellFormed(f)
    ensures !At(all, k, Lexemes(Call(f, args)))
    decreases |Lexemes(f)| + 1
  {
    hide Lex, Sane;
    if At(all, k, Lexemes(Call(f, args))) {
      Middle(all, tokens, k, Lexemes(f), PunctLex("("), ArgLexemes(args));
      EffectFreeAt(f, all, tokens, k);
      LexShape(PunctLex("("), tokens[k + |Lexemes(f)|]);
      NotCalled(tokens, k + |Lexemes(f)|);
    }
  }

  /** An expression found inside an accepted list is effect-free and ends in an operand. */
  lemma {:induction false} EffectFreeAt(e: Rich, all: seq<Lexeme>, tokens: seq<Token>, k: nat)
    requires Accepted(all, tokens) && WellFormed(e) && At(all, k, Lexemes(e))
    ensures Harmless(e, tokens, k)
    decreases |Lexemes(e)|
  {
    hide Lex, Sane, BINARY_OPERATORS, UNARY_OPERATORS, At;
    NotMarkedAt(e, all, tokens, k);
    match e
    case Parens(inner) => ParensAt(inner, all, tokens, k);
    case UnaryOp(op, operand) =>
      AtConcat(all, k, [PunctLex(op)], Lexemes(operand));
      EffectFreeAt(operand, all, tokens, k + 1);
    case BinaryOp(l, op, r) => InfixAt(l, PunctLex(op), r, all, tokens, k);
    case Conditional(c, y, n) => ConditionalAt(c, y, n, all, tokens, k);
    case Member(inner, property) => MemberAt(inner, property, all, tokens, k);
    case Call(f, args) => NoCallAt(f, args, all, tokens, k);
    case _ => LeafAt(e, all, tokens, k);
  }

  /** Every expression whose lexemes are tokens of the vocabulary and accepted is effect-free. */
  lemma AcceptedIsEffectFree(e: Rich, tokens: seq<Token>)
    requires WellFormed(e) && LexesTo(Lexemes(e), tokens) && Accepts(tokens)
    ensures EffectFree(e)
  {
    AcceptedIsSane(tokens);
    assert At(Lexemes(e), 0, Lexemes(e));
    EffectFreeAt(e, Lexemes(e), tokens, 0);
  }

  // ----- running the richer language -----

  /**
   * The outside world. Everything a program can run that is not fixed by the expression's own shape
   * is a parameter: what calls, property reads, words and templates do to the store, what the pure
   * operators compute, and which operators stop after their left operand.
   */
  datatype World<!S, !V> = World(
    literal: Lexeme -> V,
    lookup: (S, string) -> V,
    unary: (string, V) -> V,
    stops: (string, V) -> bool,
    binary: (string, V, V) -> V,
    holds: V -> bool,
    observe: (V, string) -> V,
    read: (S, V, string) -> (S, V),
    index: (S, V, V) -> (S, V),
    store: (S, Rich, string, V) -> (S, V),
    update: (S, Rich, string, bool) -> (S, V),
    call: (S, V, seq<V>) -> (S, V),
    word: (S, string, V) -> (S, V),
    expand: (S, string) -> (S, V))

  function Run<S, V>(w: World<S, V>, e: Rich, s: S): (S, V) {
    match e
    case NumLit(text) => (s, w.literal(NumLex(text)))
    case StrLit(text) => (s, w.literal(StrLex(text)))
    case RegexLit(text) => w.expand(s, text)
    case Template(text) => w.expand(s, text)
    case Name(x) => (s, w.lookup(s, x))
    case Parens(inner) => Run(w, inner, s)
    case UnaryOp(op, inner) =>
      var (s1, v) := Run(w, inner, s);
      (s1, w.unary(op, v))
    case BinaryOp(l, op, r) =>
      var (s1, a) := Run(w, l, s);
      if w.stops(op, a) then (s1, a)
      else
        var (s2, b) := Run(w, r, s1);
        (s2, w.binary(op, a, b))
    case Conditional(c, y, n) =>
      var (s1, v) := Run(w, c, s);
      if w.holds(v) then Run(w, y, s1) else Run(w, n, s1)
    case Member(inner, property) =>
      var (s1, v) := Run(w, inner, s);
      if Observation(property) then (s1, w.observe(v, property)) else w.read(s1, v, property)
    case Assign(t, op, value) =>
      var (s1, v) := Run(w, value, s);
      w.store(s1, t, op, v)
    case Update(op, prefix, inner) => w.update(s, inner, op, prefix)
    case Call(f, args) =>
      var (s1, v) := Run(w, f, s);
      var (s2, vs) := RunArgs(w, args, s1);
      w.call(s2, v, vs)
    case Index(inner, i) =>
      var (s1, v) := Run(w, inner, s);
      var (s2, k) := Run(w, i, s1);
      w.index(s2, v, k)
    case WordOp(x, inner) =>
      var (s1, v) := Run(w, inner, s);
      w.word(s1, x, v)
    case Sequence(l, r) =>
      var (s1, _) := Run(w, l, s);
      Run(w, r, s1)
  }

  function RunArgs<S, V>(w: World<S, V>, args: Args, s: S): (S, seq<V>) {
    match args
    case NoArgs => (s, [])
    case MoreArgs(h, t) =>
      var (s1, v) := Run(w, h, s);
      var (s2, vs) := RunArgs(w, t, s1);
      (s2, [v] + vs)
  }

  lemma {:induction false} EffectFreeKeepsStore<S, V>(w: World<S, V>, e: Rich, s: S)
    requires EffectFree(e)
    ensures Run(w, e, s).0 == s
  {
    match e
    case Parens(inner) => EffectFreeKeepsStore(w, inner, s);
    case UnaryOp(_, inner) => EffectFreeKeepsStore(w, inner, s);
    case BinaryOp(l, _, r) =>
      EffectFreeKeepsStore(w, l, s);
      EffectFreeKeepsStore(w, r, s);
    case Conditional(c, y, n) =>
      EffectFreeKeepsStore(w, c, s);
      EffectFreeKeepsStore(w, y, s);
      EffectFreeKeepsStore(w, n, s);
    case Member(inner, _) => EffectFreeKeepsStore(w, inner, s);
    case _ =>
  }

  /** Whatever calls, reads and stores do in the world, an accepted expression changes nothing. */
  lemma AcceptedKeepsStore<S, V>(w: World<S, V>, e: Rich, tokens: seq<Token>, s: S)
    requires WellFormed(e) && LexesTo(Lexemes(e), tokens) && Accepts(tokens)
    ensures Run(w, e, s).0 == s
  {
    AcceptedIsEffectFree(e, tokens);
    EffectFreeKeepsStore(w, e, s);
  }
}
