/** Which trees of the richer language the scalar grammar accepts, on their tokens. */
module ScalarTrees {
  import opened Wrappers
  import opened ScalarGrammar
  import opened ScalarPurity

  /** The lexemes end in a name off which a property may be read. */
  predicate EndsInName(ls: seq<Lexeme>) {
    ls != [] && ls[|ls| - 1].WordLex? && !LiteralWord(ls[|ls| - 1].text)
  }

  /** Every property is read off a name. */
  predicate Readable(e: Rich) {
    match e
    case Parens(inner) => Readable(inner)
    case UnaryOp(_, inner) => Readable(inner)
    case BinaryOp(l, _, r) => Readable(l) && Readable(r)
    case Conditional(c, y, n) => Readable(c) && Readable(y) && Readable(n)
    case Member(inner, _) => Readable(inner) && EndsInName(Lexemes(inner))
    case _ => true
  }

  /** The words that are literals, in whatever case. */
  const LITERALS: set<string> := {"true", "false", "null", "nil", "none", "undefined"}

  /** Letter by letter the lower-case word, or its capital. */
  predicate InAnyCase(word: string, lower: string) {
    && |word| == |lower|
    && forall i :: 0 <= i < |word| ==>
         word[i] == lower[i] || (word[i] as int + 32 == lower[i] as int && 'a' <= lower[i] <= 'z')
  }

  lemma LiteralWordIff(word: string)
    ensures LiteralWord(word) <==> exists lower :: lower in LITERALS && InAnyCase(word, lower)
  {
    hide LITERALS;
    LiteralsAre(ToLower(word));
    if LiteralWord(word) {
      assert InAnyCase(word, ToLower(word));
    }
    if lower :| lower in LITERALS && InAnyCase(word, lower) {
      LiteralsAreLower(lower);
      assert ToLower(word) == lower;
    }
  }

  lemma LiteralsAre(word: string)
    ensures word in LITERALS <==> word in {"true", "false", "null", "nil", "none", "undefined"}
  {
  }

  lemma LiteralsAreLower(lower: string)
    requires lower in LITERALS
    ensures forall i :: 0 <= i < |lower| ==> 'a' <= lower[i] <= 'z'
  {
  }

  // ----- trees of the grammar, put together -----

  function JoinBinary(a: Binary, op: string, b: Binary): Binary {
    match a
    case Single(u) => Chain(u, op, b)
    case Chain(u, first, rest) => Chain(u, first, JoinBinary(rest, op, b))
  }

  /** `a op b`: the operator goes to the last operand of `a` and the first of `b`. */
  function Join(a: Ternary, op: string, b: Ternary): Ternary {
    match a
    case Choice(c, yes, no) => Choice(c, yes, Join(no, op, b))
    case Flat(left) =>
      match b
      case Flat(right) => Flat(JoinBinary(left, op, right))
      case Choice(c, yes, no) => Choice(JoinBinary(left, op, c), yes, no)
  }

  /** `c ? yes : no`. */
  function Choose(c: Ternary, yes: Ternary, no: Ternary): Ternary {
    match c
    case Flat(b) => Choice(b, yes, no)
    case Choice(c1, yes1, no1) => Choice(c1, yes1, Choose(no1, yes, no))
  }

  function PrefixBinary(op: string, b: Binary): Binary {
    match b
    case Single(u) => Single(Prefixed(op, u))
    case Chain(u, next, rest) => Chain(Prefixed(op, u), next, rest)
  }

  function Prefix(op: string, t: Ternary): Ternary {
    match t
    case Flat(b) => Flat(PrefixBinary(op, b))
    case Choice(c, yes, no) => Choice(PrefixBinary(op, c), yes, no)
  }

  function ObserveUnary(u: Unary, property: string): Unary {
    match u
    case Prefixed(op, operand) => Prefixed(op, ObserveUnary(operand, property))
    case Plain(p) => Plain(if p.Word? then p.(observations := p.observations + [property]) else p)
  }

  function ObserveBinary(b: Binary, property: string): Binary {
    match b
    case Single(u) => Single(ObserveUnary(u, property))
    case Chain(u, op, rest) => Chain(u, op, ObserveBinary(rest, property))
  }

  /** The property, read off the last operand. */
  function Observe(t: Ternary, property: string): Ternary {
    match t
    case Flat(b) => Flat(ObserveBinary(b, property))
    case Choice(c, yes, no) => Choice(c, yes, Observe(no, property))
  }

  lemma {:induction false} JoinBinaryPrints(a: Binary, op: string, b: Binary)
    requires BinaryOk(a) && op in BINARY_OPERATORS && BinaryOk(b)
    ensures BinaryOk(JoinBinary(a, op, b))
    ensures PrintBinary(JoinBinary(a, op, b)) == PrintBinary(a) + [Punct(op)] + PrintBinary(b)
  {
    match a
    case Single(_) =>
    case Chain(u, first, rest) =>
      JoinBinaryPrints(rest, op, b);
      Regroup(PrintUnary(u) + [Punct(first)], PrintBinary(rest), [Punct(op)], PrintBinary(b));
  }

  lemma Regroup(a: seq<Token>, b: seq<Token>, c: seq<Token>, d: seq<Token>)
    ensures a + (b + c + d) == a + b + c + d && a + (b + c) == a + b + c
  {
  }

  lemma {:induction false} JoinPrints(a: Ternary, op: string, b: Ternary)
    requires TernaryOk(a) && op in BINARY_OPERATORS && TernaryOk(b)
    ensures TernaryOk(Join(a, op, b))
    ensures PrintTernary(Join(a, op, b)) == PrintTernary(a) + [Punct(op)] + PrintTernary(b)
  {
    hide BINARY_OPERATORS;
    match a
    case Choice(c, yes, no) =>
      JoinPrints(no, op, b);
      Regroup(PrintBinary(c) + [Punct("?")] + PrintTernary(yes) + [Punct(":")], PrintTernary(no), [Punct(op)],
          PrintTernary(b));
    case Flat(left) =>
      match b
      case Flat(right) => JoinBinaryPrints(left, op, right);
      case Choice(c, yes, no) =>
        JoinBinaryPrints(left, op, c);
        var rest := [Punct("?")] + PrintTernary(yes) + [Punct(":")] + PrintTernary(no);
        assert PrintTernary(b) == PrintBinary(c) + rest;
        assert PrintTernary(Join(a, op, b)) == PrintBinary(JoinBinary(left, op, c)) + rest;
        Regroup(PrintBinary(left) + [Punct(op)], PrintBinary(c), rest, []);
  }

  lemma {:induction false} ChoosePrints(c: Ternary, yes: Ternary, no: Ternary)
    requires TernaryOk(c) && TernaryOk(yes) && TernaryOk(no)
    ensures TernaryOk(Choose(c, yes, no))
    ensures PrintTernary(Choose(c, yes, no)) ==
            PrintTernary(c) + [Punct("?")] + (PrintTernary(yes) + [Punct(":")] + PrintTernary(no))
  {
    var tail := PrintTernary(yes) + [Punct(":")] + PrintTernary(no);
    match c
    case Flat(b) =>
      assert PrintTernary(Choice(b, yes, no)) == PrintBinary(b) + [Punct("?")] + tail;
    case Choice(c1, yes1, no1) =>
      ChoosePrints(no1, yes, no);
      Regroup(PrintBinary(c1) + [Punct("?")] + PrintTernary(yes1) + [Punct(":")], PrintTernary(no1), [Punct("?")],
          tail);
  }

  lemma PrefixBinaryPrints(op: string, b: Binary)
    requires op in UNARY_OPERATORS && BinaryOk(b)
    ensures BinaryOk(PrefixBinary(op, b)) && PrintBinary(PrefixBinary(op, b)) == [Punct(op)] + PrintBinary(b)
  {
    hide UNARY_OPERATORS, BINARY_OPERATORS;
    match b
    case Single(u) =>
    case Chain(u, next, rest) => Regroup([Punct(op)], PrintUnary(u), [Punct(next)], PrintBinary(rest));
  }

  lemma PrefixPrints(op: string, t: Ternary)
    requires op in UNARY_OPERATORS && TernaryOk(t)
    ensures TernaryOk(Prefix(op, t)) && PrintTernary(Prefix(op, t)) == [Punct(op)] + PrintTernary(t)
  {
    hide UNARY_OPERATORS, PrefixBinary;
    match t
    case Flat(b) => PrefixBinaryPrints(op, b);
    case Choice(c, yes, no) =>
      PrefixBinaryPrints(op, c);
      var rest := [Punct("?")] + PrintTernary(yes) + [Punct(":")] + PrintTernary(no);
      assert PrintTernary(t) == PrintBinary(c) + rest;
      assert PrintTernary(Prefix(op, t)) == PrintBinary(PrefixBinary(op, c)) + rest;
      Regroup([Punct(op)], PrintBinary(c), rest, []);
  }

  /** The list ends in a name off which a property may be read. */
  predicate LastName(tokens: seq<Token>) {
    tokens != [] && tokens[|tokens| - 1].Ident? && !LiteralWord(tokens[|tokens| - 1].value)
  }

  lemma LastNameOfTail(a: seq<Token>, b: seq<Token>)
    requires b != []
    ensures LastName(a + b) <==> LastName(b)
  {
    assert (a + b)[|a + b| - 1] == b[|b| - 1];
  }

  lemma {:induction false} ObservationsAppend(obs: seq<string>, property: string)
    ensures PrintObservations(obs + [property]) == PrintObservations(obs) + [Punct("."), Ident(property)]
    decreases obs
  {
    if obs == [] {
      assert [property][1..] == [];
    } else {
      assert (obs + [property])[1..] == obs[1..] + [property];
      ObservationsAppend(obs[1..], property);
    }
  }

  lemma {:induction false} ObserveUnaryPrints(u: Unary, property: string)
    requires UnaryOk(u) && Observation(property) && LastName(PrintUnary(u))
    ensures UnaryOk(ObserveUnary(u, property))
    ensures PrintUnary(ObserveUnary(u, property)) == PrintUnary(u) + [Punct("."), Ident(property)]
  {
    hide UNARY_OPERATORS, LiteralWord, Observation;
    match u
    case Prefixed(op, operand) =>
      UnarySane(operand);
      LastNameOfTail([Punct(op)], PrintUnary(operand));
      ObserveUnaryPrints(operand, property);
      Regroup([Punct(op)], PrintUnary(operand), [Punct("."), Ident(property)], []);
    case Plain(p) =>
      if p.Word? {
        ObservationsAppend(p.observations, property);
        assert p.observations == [] ==> PrintPrimary(p) == [Ident(p.word)];
        Regroup([Ident(p.word)], PrintObservations(p.observations), [Punct("."), Ident(property)], []);
      }
  }

  lemma {:induction false} ObserveBinaryPrints(b: Binary, property: string)
    requires BinaryOk(b) && Observation(property) && LastName(PrintBinary(b))
    ensures BinaryOk(ObserveBinary(b, property))
    ensures PrintBinary(ObserveBinary(b, property)) == PrintBinary(b) + [Punct("."), Ident(property)]
  {
    hide BINARY_OPERATORS, UNARY_OPERATORS, LiteralWord, Observation;
    match b
    case Single(u) => ObserveUnaryPrints(u, property);
    case Chain(u, op, rest) =>
      BinarySane(rest);
      LastNameOfTail(PrintUnary(u) + [Punct(op)], PrintBinary(rest));
      ObserveBinaryPrints(rest, property);
      Regroup(PrintUnary(u) + [Punct(op)], PrintBinary(rest), [Punct("."), Ident(property)], []);
  }

  lemma {:induction false} ObservePrints(t: Ternary, property: string)
    requires TernaryOk(t) && Observation(property) && LastName(PrintTernary(t))
    ensures TernaryOk(Observe(t, property))
    ensures PrintTernary(Observe(t, property)) == PrintTernary(t) + [Punct("."), Ident(property)]
  {
    hide LiteralWord, Observation;
    match t
    case Flat(b) => ObserveBinaryPrints(b, property);
    case Choice(c, yes, no) =>
      var front := PrintBinary(c) + [Punct("?")] + PrintTernary(yes) + [Punct(":")];
      TernarySane(no);
      LastNameOfTail(front, PrintTernary(no));
      ObservePrints(no, property);
      Regroup(front, PrintTernary(no), [Punct("."), Ident(property)], []);
  }

  // ----- from the richer language to the grammar -----

  lemma SplitTokens(a: seq<Lexeme>, b: seq<Lexeme>, tokens: seq<Token>)
    requires LexesTo(a + b, tokens)
    ensures |tokens| == |a| + |b|
    ensures tokens == tokens[..|a|] + tokens[|a|..] && LexesTo(a, tokens[..|a|]) && LexesTo(b, tokens[|a|..])
  {
    hide Lex;
    forall i | 0 <= i < |a|
      ensures Lex(a[i]) == Some(tokens[..|a|][i])
    {
      assert (a + b)[i] == a[i];
    }
    forall i | 0 <= i < |b|
      ensures Lex(b[i]) == Some(tokens[|a|..][i])
    {
      assert (a + b)[|a| + i] == b[i];
    }
  }

  lemma SplitThree(a: seq<Lexeme>, mark: string, b: seq<Lexeme>, tokens: seq<Token>)
    returns (left: seq<Token>, right: seq<Token>)
    requires LexesTo(a + [PunctLex(mark)] + b, tokens)
    ensures tokens == left + [Punct(mark)] + right && LexesTo(a, left) && LexesTo(b, right)
  {
    hide Lex;
    SplitTokens(a + [PunctLex(mark)], b, tokens);
    var front := tokens[..|a| + 1];
    right := tokens[|a| + 1..];
    SplitTokens(a, [PunctLex(mark)], front);
    left := front[..|a|];
    MarkToken(mark, front[|a|..]);
  }

  lemma MarkToken(mark: string, tokens: seq<Token>)
    requires LexesTo([PunctLex(mark)], tokens)
    ensures tokens == [Punct(mark)]
  {
    hide SCALAR_PUNCTUATION;
    assert Lex([PunctLex(mark)][0]) == Some(tokens[0]);
  }

  lemma LastNameLexed(ls: seq<Lexeme>, tokens: seq<Token>)
    requires LexesTo(ls, tokens)
    ensures EndsInName(ls) <==> LastName(tokens)
  {
    hide LiteralWord, SCALAR_PUNCTUATION, NON_SCALAR_WORDS;
    if ls != [] {
      assert Lex(ls[|ls| - 1]) == Some(tokens[|tokens| - 1]);
    }
  }

  lemma PlainTree(p: Primary)
    ensures var t := Flat(Binary.Single(Plain(p)));
            (TernaryOk(t) <==> PrimaryOk(p)) && PrintTernary(t) == PrintPrimary(p)
    ensures p.Paren? ==> (PrimaryOk(p) <==> TernaryOk(p.inner))
    ensures p.Paren? ==> PrintPrimary(p) == [Punct("(")] + PrintTernary(p.inner) + [Punct(")")]
  {
    var u := Plain(p);
    var b := Binary.Single(u);
    assert UnaryOk(u) <==> PrimaryOk(p);
    assert BinaryOk(b) <==> UnaryOk(u);
    assert PrintBinary(b) == PrintUnary(u) == PrintPrimary(p);
  }

  lemma {:induction false} ParensDerive(inner: Rich, tokens: seq<Token>) returns (t: Ternary)
    requires WellFormed(inner) && EffectFree(inner) && Readable(inner) && LexesTo(Lexemes(Parens(inner)), tokens)
    ensures TernaryOk(t) && PrintTernary(t) == tokens
    decreases inner, 1
  {
    hide Lex, LexesTo;
    var ls := [PunctLex("(")] + Lexemes(inner);
    SplitTokens(ls, [PunctLex(")")], tokens);
    SplitTokens([PunctLex("(")], Lexemes(inner), tokens[..|ls|]);
    MarkToken(")", tokens[|ls|..]);
    MarkToken("(", tokens[..|ls|][..1]);
    var t1 := Derive(inner, tokens[..|ls|][1..]);
    PlainTree(Paren(t1));
    t := Flat(Binary.Single(Plain(Paren(t1))));
  }

  lemma {:induction false} MemberDerive(inner: Rich, property: string, tokens: seq<Token>) returns (t: Ternary)
    requires WellFormed(inner) && EffectFree(Member(inner, property)) && Readable(Member(inner, property))
    requires LexesTo(Lexemes(Member(inner, property)), tokens)
    ensures TernaryOk(t) && PrintTernary(t) == tokens
    decreases inner, 1
  {
    hide Lex, LexesTo, Observation, LiteralWord, EndsInName;
    var k := |Lexemes(inner)|;
    SplitTokens(Lexemes(inner), [PunctLex("."), WordLex(property)], tokens);
    var front, back := tokens[..k], tokens[k..];
    assert [PunctLex("."), WordLex(property)] == [PunctLex(".")] + [WordLex(property)];
    SplitTokens([PunctLex(".")], [WordLex(property)], back);
    MarkToken(".", back[..1]);
    WordToken(property, back[1..]);
    LastNameLexed(Lexemes(inner), front);
    var t1 := Derive(inner, front);
    ObservePrints(t1, property);
    t := Observe(t1, property);
  }

  lemma WordToken(word: string, tokens: seq<Token>)
    requires LexesTo([WordLex(word)], tokens)
    ensures tokens == [Ident(word)]
  {
    hide NON_SCALAR_WORDS;
    assert Lex([WordLex(word)][0]) == Some(tokens[0]);
  }

  lemma LeafDerive(e: Rich, tokens: seq<Token>) returns (t: Ternary)
    requires (e.NumLit? || e.StrLit? || e.Name?) && LexesTo(Lexemes(e), tokens)
    ensures TernaryOk(t) && PrintTernary(t) == tokens
  {
    hide NON_SCALAR_WORDS, LiteralWord;
    assert Lex(Lexemes(e)[0]) == Some(tokens[0]);
    var p := if e.NumLit? then NumberLit else if e.StrLit? then TextLit else Word(e.word, []);
    assert PrimaryOk(p) && PrintPrimary(p) == [tokens[0]];
    PlainTree(p);
    t := Flat(Binary.Single(Plain(p)));
  }

  /** The derivation of an effect-free, readable expression, whatever its shape. */
  lemma {:induction false} Derive(e: Rich, tokens: seq<Token>) returns (t: Ternary)
    requires WellFormed(e) && EffectFree(e) && Readable(e) && LexesTo(Lexemes(e), tokens)
    ensures TernaryOk(t) && PrintTernary(t) == tokens
    decreases e, 0
  {
    hide Lex, LexesTo, BINARY_OPERATORS, UNARY_OPERATORS, Observation, EndsInName;
    match e
    case Parens(inner) => t := ParensDerive(inner, tokens);
    case UnaryOp(op, inner) =>
      SplitTokens([PunctLex(op)], Lexemes(inner), tokens);
      MarkToken(op, tokens[..1]);
      var t1 := Derive(inner, tokens[1..]);
      PrefixPrints(op, t1);
      t := Prefix(op, t1);
    case BinaryOp(l, op, r) =>
      var left, right := SplitThree(Lexemes(l), op, Lexemes(r), tokens);
      var t1 := Derive(l, left);
      var t2 := Derive(r, right);
      JoinPrints(t1, op, t2);
      t := Join(t1, op, t2);
    case Conditional(c, y, n) =>
      var first, rest := SplitThree(Lexemes(c), "?", Lexemes(y) + [PunctLex(":")] + Lexemes(n), tokens);
      var yes, no := SplitThree(Lexemes(y), ":", Lexemes(n), rest);
      var t1 := Derive(c, first);
      var t2 := Derive(y, yes);
      var t3 := Derive(n, no);
      ChoosePrints(t1, t2, t3);
      t := Choose(t1, t2, t3);
    case Member(inner, property) => t := MemberDerive(inner, property, tokens);
    case _ => t := LeafDerive(e, tokens);
  }

  // ----- and back -----

  /** Every property in a list is read off a name. */
  ghost predicate DotsFollowNames(tokens: seq<Token>) {
    forall i :: 0 <= i < |tokens| && tokens[i] == Punct(".") ==> i > 0 && LastName(tokens[..i])
  }

  lemma DotsJoin(a: seq<Token>, mark: string, b: seq<Token>)
    requires DotsFollowNames(a) && DotsFollowNames(b) && mark != "."
    ensures DotsFollowNames(a + [Punct(mark)] + b)
  {
    hide LiteralWord;
    var all := a + [Punct(mark)] + b;
    forall i | 0 <= i < |all| && all[i] == Punct(".")
      ensures i > 0 && LastName(all[..i])
    {
      if i < |a| {
        assert all[..i] == a[..i] && a[i] == Punct(".");
      } else {
        var j := i - |a| - 1;
        assert b[j] == Punct(".") && all[..i][i - 1] == b[..j][j - 1];
      }
    }
  }

  lemma DotsEmpty()
    ensures DotsFollowNames([])
  {
  }

  lemma {:induction false} ObservationsDots(w: string, obs: seq<string>)
    requires (LiteralWord(w) ==> obs == []) && forall i :: 0 <= i < |obs| ==> Observation(obs[i])
    ensures DotsFollowNames([Ident(w)] + PrintObservations(obs))
    decreases obs
  {
    hide LiteralWord;
    if obs != [] {
      ObservationIsName(obs[0]);
      ObservationsDots(obs[0], obs[1..]);
      var tail := [Ident(obs[0])] + PrintObservations(obs[1..]);
      var all := [Ident(w)] + PrintObservations(obs);
      assert all == [Ident(w), Punct(".")] + tail;
      forall i | 0 <= i < |all| && all[i] == Punct(".")
        ensures i > 0 && LastName(all[..i])
      {
        if i > 1 {
          assert tail[i - 2] == Punct(".") && all[..i][i - 1] == tail[..i - 2][i - 3];
        } else {
          assert all[..1][0] == Ident(w);
        }
      }
    }
  }

  lemma ObservationIsName(word: string)
    requires Observation(word)
    ensures !LiteralWord(word)
  {
    assert ToLower("length") == "length" && ToLower("size") == "size";
  }

  lemma {:induction false} PrimaryDots(p: Primary)
    requires PrimaryOk(p)
    ensures DotsFollowNames(PrintPrimary(p))
    decreases p
  {
    match p
    case NumberLit =>
    case TextLit =>
    case Word(w, obs) => ObservationsDots(w, obs);
    case Paren(inner) =>
      TernaryDots(inner);
      DotsEmpty();
      DotsJoin([], "(", PrintTernary(inner));
      DotsJoin([Punct("(")] + PrintTernary(inner), ")", []);
      assert [] + [Punct("(")] + PrintTernary(inner) == [Punct("(")] + PrintTernary(inner);
      assert PrintPrimary(p) == [Punct("(")] + PrintTernary(inner) + [Punct(")")] + [];
  }

  lemma {:induction false} UnaryDots(u: Unary)
    requires UnaryOk(u)
    ensures DotsFollowNames(PrintUnary(u))
    decreases u
  {
    match u
    case Prefixed(op, operand) =>
      UnaryDots(operand);
      DotsEmpty();
      DotsJoin([], op, PrintUnary(operand));
      assert [] + [Punct(op)] + PrintUnary(operand) == PrintUnary(u);
    case Plain(p) => PrimaryDots(p);
  }

  lemma {:induction false} BinaryDots(b: Binary)
    requires BinaryOk(b)
    ensures DotsFollowNames(PrintBinary(b))
    decreases b
  {
    match b
    case Single(u) => UnaryDots(u);
    case Chain(u, op, rest) =>
      UnaryDots(u);
      BinaryDots(rest);
      DotsJoin(PrintUnary(u), op, PrintBinary(rest));
  }

  lemma {:induction false} TernaryDots(t: Ternary)
    requires TernaryOk(t)
    ensures DotsFollowNames(PrintTernary(t))
    decreases t
  {
    match t
    case Flat(b) => BinaryDots(b);
    case Choice(c, yes, no) =>
      BinaryDots(c);
      TernaryDots(yes);
      TernaryDots(no);
      DotsJoin(PrintBinary(c), "?", PrintTernary(yes));
      DotsJoin(PrintBinary(c) + [Punct("?")] + PrintTernary(yes), ":", PrintTernary(no));
  }

  /** In an accepted list every property read in the expression is read off a name. */
  lemma {:induction false} ReadableAt(e: Rich, all: seq<Lexeme>, tokens: seq<Token>, k: nat)
    requires LexesTo(all, tokens) && DotsFollowNames(tokens) && EffectFree(e) && At(all, k, Lexemes(e))
    ensures Readable(e)
    decreases e
  {
    hide Lex, LexesTo, DotsFollowNames, At, Observation;
    match e
    case Parens(inner) =>
      AtConcat(all, k, [PunctLex("(")] + Lexemes(inner), [PunctLex(")")]);
      AtConcat(all, k, [PunctLex("(")], Lexemes(inner));
      ReadableAt(inner, all, tokens, k + 1);
    case UnaryOp(op, inner) =>
      AtConcat(all, k, [PunctLex(op)], Lexemes(inner));
      ReadableAt(inner, all, tokens, k + 1);
    case BinaryOp(l, op, r) =>
      AtConcat(all, k, Lexemes(l) + [PunctLex(op)], Lexemes(r));
      AtConcat(all, k, Lexemes(l), [PunctLex(op)]);
      ReadableAt(l, all, tokens, k);
      ReadableAt(r, all, tokens, k + |Lexemes(l)| + 1);
    case Conditional(c, y, n) =>
      AtConcat(all, k, Lexemes(c) + [PunctLex("?")], Lexemes(y) + [PunctLex(":")] + Lexemes(n));
      AtConcat(all, k, Lexemes(c), [PunctLex("?")]);
      var m := k + |Lexemes(c)| + 1;
      AtConcat(all, m, Lexemes(y) + [PunctLex(":")], Lexemes(n));
      AtConcat(all, m, Lexemes(y), [PunctLex(":")]);
      ReadableAt(c, all, tokens, k);
      ReadableAt(y, all, tokens, m);
      ReadableAt(n, all, tokens, m + |Lexemes(y)| + 1);
    case Member(inner, property) =>
      AtConcat(all, k, Lexemes(inner), [PunctLex("."), WordLex(property)]);
      ReadableAt(inner, all, tokens, k);
      NameBefore(all, tokens, k, Lexemes(inner), property);
    case _ =>
  }

  lemma NameBefore(all: seq<Lexeme>, tokens: seq<Token>, k: nat, ls: seq<Lexeme>, property: string)
    requires LexesTo(all, tokens) && DotsFollowNames(tokens) && ls != []
    requires At(all, k, ls) && At(all, k + |ls|, [PunctLex("."), WordLex(property)])
    ensures EndsInName(ls)
  {
    hide Lex, LiteralWord;
    var j, part := k + |ls|, [PunctLex("."), WordLex(property)];
    assert all[j + 0] == part[0] && all[k + (|ls| - 1)] == ls[|ls| - 1];
    LexShape(all[j], tokens[j]);
    assert tokens[..j][j - 1] == tokens[j - 1];
    LastNameLexed([ls[|ls| - 1]], [tokens[j - 1]]);
  }

  /** Of the trees of the richer language, exactly the effect-free and readable ones are accepted. */
  lemma AcceptedIff(e: Rich, tokens: seq<Token>)
    requires WellFormed(e) && LexesTo(Lexemes(e), tokens)
    ensures Accepts(tokens) <==> EffectFree(e) && Readable(e)
  {
    hide Accepts, Lex, LexesTo, WellFormed, EffectFree, Readable, Derivable, DotsFollowNames;
    AcceptsIffDerivable(tokens);
    if Accepts(tokens) {
      AcceptedIsEffectFree(e, tokens);
      DerivedDots(tokens);
      assert At(Lexemes(e), 0, Lexemes(e));
      ReadableAt(e, Lexemes(e), tokens, 0);
    }
    if EffectFree(e) && Readable(e) {
      var t := Derive(e, tokens);
      Derived(t, tokens);
    }
  }

  lemma DerivedDots(tokens: seq<Token>)
    requires Derivable(tokens)
    ensures DotsFollowNames(tokens)
  {
    hide TernaryOk, PrintTernary, DotsFollowNames;
    var t :| TernaryOk(t) && PrintTernary(t) == tokens;
    TernaryDots(t);
  }

  lemma Derived(t: Ternary, tokens: seq<Token>)
    requires TernaryOk(t) && PrintTernary(t) == tokens
    ensures Derivable(tokens)
  {
  }
}
