/**
 * The effect-free scalar grammar: its token vocabulary, its syntax trees with their printed form,
 * and the reading of a token list that the recursive-descent recognizer performs.
 */
module ScalarGrammar {
  import opened Wrappers

  datatype Token = Number | Text | Ident(value: string) | Punct(value: string)

  const BINARY_OPERATORS: set<string> := {
    "+", "-", "*", "/", "%", "**", "===", "!==", "==", "!=", "<=", ">=", "<", ">",
    "&&", "||", "??", "&", "|", "^", "<<", ">>", ">>>"
  }

  const UNARY_OPERATORS: set<string> := {"!", "-", "+", "~"}

  function ToLower(word: string): string {
    seq(|word|, i requires 0 <= i < |word| =>
      if 'A' <= word[i] <= 'Z' then ((word[i] as int) - ('A' as int) + ('a' as int)) as char else word[i])
  }

  predicate LiteralWord(word: string) {
    ToLower(word) in {"true", "false", "null", "nil", "none", "undefined"}
  }

  predicate Observation(word: string) {
    word in {"length", "size"}
  }

  // ----- syntax trees -----

  datatype Primary =
    | NumberLit
    | TextLit
    | Word(word: string, observations: seq<string>)
    | Paren(inner: Ternary)

  datatype Unary = Prefixed(op: string, operand: Unary) | Plain(primary: Primary)

  /** A chain of operands, read left to right; the recognizer does not model precedence. */
  datatype Binary = Single(last: Unary) | Chain(first: Unary, op: string, rest: Binary)

  datatype Ternary = Flat(value: Binary) | Choice(condition: Binary, yes: Ternary, no: Ternary)

  predicate PrimaryOk(p: Primary) {
    match p
    case Word(w, obs) =>
      && (LiteralWord(w) ==> obs == [])
      && (forall i :: 0 <= i < |obs| ==> Observation(obs[i]))
    case Paren(inner) => TernaryOk(inner)
    case _ => true
  }

  predicate UnaryOk(u: Unary) {
    match u
    case Prefixed(op, operand) => op in UNARY_OPERATORS && UnaryOk(operand)
    case Plain(p) => PrimaryOk(p)
  }

  predicate BinaryOk(b: Binary) {
    match b
    case Single(u) => UnaryOk(u)
    case Chain(u, op, rest) => UnaryOk(u) && op in BINARY_OPERATORS && BinaryOk(rest)
  }

  predicate TernaryOk(t: Ternary) {
    match t
    case Flat(b) => BinaryOk(b)
    case Choice(c, yes, no) => BinaryOk(c) && TernaryOk(yes) && TernaryOk(no)
  }

  function PrintObservations(obs: seq<string>): seq<Token> {
    if obs == [] then [] else [Punct("."), Ident(obs[0])] + PrintObservations(obs[1..])
  }

  function PrintPrimary(p: Primary): seq<Token> {
    match p
    case NumberLit => [Number]
    case TextLit => [Text]
    case Word(w, obs) => [Ident(w)] + PrintObservations(obs)
    case Paren(inner) => [Punct("(")] + PrintTernary(inner) + [Punct(")")]
  }

  function PrintUnary(u: Unary): seq<Token> {
    match u
    case Prefixed(op, operand) => [Punct(op)] + PrintUnary(operand)
    case Plain(p) => PrintPrimary(p)
  }

  function PrintBinary(b: Binary): seq<Token> {
    match b
    case Single(u) => PrintUnary(u)
    case Chain(u, op, rest) => PrintUnary(u) + [Punct(op)] + PrintBinary(rest)
  }

  function PrintTernary(t: Ternary): seq<Token> {
    match t
    case Flat(b) => PrintBinary(b)
    case Choice(c, yes, no) =>
      PrintBinary(c) + [Punct("?")] + PrintTernary(yes) + [Punct(":")] + PrintTernary(no)
  }

  /** The token list is the printed form of some expression of the grammar. */
  ghost predicate Derivable(tokens: seq<Token>) {
    exists t :: TernaryOk(t) && PrintTernary(t) == tokens
  }

  // ----- the reading -----

  predicate Starts(tokens: seq<Token>, value: string) {
    tokens != [] && tokens[0] == Punct(value)
  }

  predicate StartsBinary(tokens: seq<Token>) {
    tokens != [] && tokens[0].Punct? && tokens[0].value in BINARY_OPERATORS
  }

  predicate StartsUnary(tokens: seq<Token>) {
    tokens != [] && tokens[0].Punct? && tokens[0].value in UNARY_OPERATORS
  }

  /** The observations after an identifier; what is left, or failure. */
  function ReadObservations(tokens: seq<Token>): (rest: Option<seq<Token>>)
    ensures rest.Some? ==> |rest.value| <= |tokens|
  {
    if !Starts(tokens, ".") then Some(tokens)
    else if |tokens| >= 2 && tokens[1].Ident? && Observation(tokens[1].value) then ReadObservations(tokens[2..])
    else None
  }

  function ReadPrimary(tokens: seq<Token>): (rest: Option<seq<Token>>)
    ensures rest.Some? ==> |rest.value| < |tokens|
    decreases |tokens|, 0
  {
    if tokens == [] then None
    else match tokens[0]
      case Number => Some(tokens[1..])
      case Text => Some(tokens[1..])
      case Ident(w) => if LiteralWord(w) then Some(tokens[1..]) else ReadObservations(tokens[1..])
      case Punct(v) =>
        if v != "(" then None
        else
          var inner := ReadTernary(tokens[1..]);
          if inner.Some? && Starts(inner.value, ")") then Some(inner.value[1..]) else None
  }

  function ReadUnary(tokens: seq<Token>): (rest: Option<seq<Token>>)
    ensures rest.Some? ==> |rest.value| < |tokens|
    decreases |tokens|, 1
  {
    if StartsUnary(tokens) then ReadUnary(tokens[1..]) else ReadPrimary(tokens)
  }

  function ReadOperands(tokens: seq<Token>): (rest: Option<seq<Token>>)
    ensures rest.Some? ==> |rest.value| <= |tokens|
    decreases |tokens|, 2
  {
    if !StartsBinary(tokens) then Some(tokens)
    else
      var operand := ReadUnary(tokens[1..]);
      if operand.None? then None else ReadOperands(operand.value)
  }

  function ReadBinary(tokens: seq<Token>): (rest: Option<seq<Token>>)
    ensures rest.Some? ==> |rest.value| < |tokens|
    decreases |tokens|, 3
  {
    var operand := ReadUnary(tokens);
    if operand.None? then None else ReadOperands(operand.value)
  }

  function ReadTernary(tokens: seq<Token>): (rest: Option<seq<Token>>)
    ensures rest.Some? ==> |rest.value| < |tokens|
    decreases |tokens|, 4
  {
    var condition := ReadBinary(tokens);
    if condition.None? then None
    else if !Starts(condition.value, "?") then condition
    else
      var yes := ReadTernary(condition.value[1..]);
      if yes.None? || !Starts(yes.value, ":") then None
      else ReadTernary(yes.value[1..])
  }

  /** The whole list is one expression: nothing is left over. */
  predicate Accepts(tokens: seq<Token>) {
    ReadTernary(tokens) == Some([])
  }

  // ----- everything read has a tree -----

  lemma {:induction false} ObservationsSound(tokens: seq<Token>) returns (obs: seq<string>)
    requires ReadObservations(tokens).Some?
    ensures forall i :: 0 <= i < |obs| ==> Observation(obs[i])
    ensures tokens == PrintObservations(obs) + ReadObservations(tokens).value
  {
    if !Starts(tokens, ".") {
      obs := [];
    } else {
      var rest := ObservationsSound(tokens[2..]);
      obs := [tokens[1].value] + rest;
      assert obs[1..] == rest;
      assert tokens == [tokens[0], tokens[1]] + tokens[2..];
    }
  }

  lemma {:induction false} PrimarySound(tokens: seq<Token>) returns (p: Primary)
    requires ReadPrimary(tokens).Some?
    ensures PrimaryOk(p) && tokens == PrintPrimary(p) + ReadPrimary(tokens).value
    decreases |tokens|, 0
  {
    assert tokens == [tokens[0]] + tokens[1..];
    match tokens[0]
    case Number => p := NumberLit;
    case Text => p := TextLit;
    case Ident(w) =>
      if LiteralWord(w) {
        p := Word(w, []);
      } else {
        var obs := ObservationsSound(tokens[1..]);
        p := Word(w, obs);
      }
    case Punct(v) =>
      var inner := TernarySound(tokens[1..]);
      var rest := ReadTernary(tokens[1..]).value;
      assert rest == [rest[0]] + rest[1..];
      p := Paren(inner);
  }

  lemma {:induction false} UnarySound(tokens: seq<Token>) returns (u: Unary)
    requires ReadUnary(tokens).Some?
    ensures UnaryOk(u) && tokens == PrintUnary(u) + ReadUnary(tokens).value
    decreases |tokens|, 1
  {
    if StartsUnary(tokens) {
      var operand := UnarySound(tokens[1..]);
      u := Prefixed(tokens[0].value, operand);
      assert tokens == [tokens[0]] + tokens[1..];
    } else {
      var p := PrimarySound(tokens);
      u := Plain(p);
    }
  }

  lemma {:induction false} BinarySound(tokens: seq<Token>) returns (b: Binary)
    requires ReadBinary(tokens).Some?
    ensures BinaryOk(b) && tokens == PrintBinary(b) + ReadBinary(tokens).value
    decreases |tokens|, 3
  {
    var u := UnarySound(tokens);
    var after := ReadUnary(tokens).value;
    if StartsBinary(after) {
      var rest := BinarySound(after[1..]);
      b := Chain(u, after[0].value, rest);
      assert after == [after[0]] + after[1..];
    } else {
      b := Single(u);
    }
  }

  lemma {:induction false} TernarySound(tokens: seq<Token>) returns (t: Ternary)
    requires ReadTernary(tokens).Some?
    ensures TernaryOk(t) && tokens == PrintTernary(t) + ReadTernary(tokens).value
    decreases |tokens|, 4
  {
    var c := BinarySound(tokens);
    var after := ReadBinary(tokens).value;
    if !Starts(after, "?") {
      t := Flat(c);
    } else {
      var yes := TernarySound(after[1..]);
      var mid := ReadTernary(after[1..]).value;
      var no := TernarySound(mid[1..]);
      assert after == [after[0]] + after[1..] && mid == [mid[0]] + mid[1..];
      t := Choice(c, yes, no);
    }
  }

  // ----- every tree is read back -----

  lemma {:induction false} ObservationsComplete(obs: seq<string>, rest: seq<Token>)
    requires forall i :: 0 <= i < |obs| ==> Observation(obs[i])
    requires !Starts(rest, ".")
    ensures ReadObservations(PrintObservations(obs) + rest) == Some(rest)
  {
    hide Observation;
    if obs == [] {
      assert PrintObservations(obs) + rest == rest;
    } else {
      var tokens := PrintObservations(obs) + rest;
      assert tokens[0] == Punct(".") && tokens[1] == Ident(obs[0]);
      assert tokens[2..] == PrintObservations(obs[1..]) + rest;
      ObservationsComplete(obs[1..], rest);
    }
  }

  lemma {:induction false} PrimaryComplete(p: Primary, rest: seq<Token>)
    requires PrimaryOk(p) && !Starts(rest, ".")
    ensures ReadPrimary(PrintPrimary(p) + rest) == Some(rest)
    ensures !StartsUnary(PrintPrimary(p) + rest)
    decreases p
  {
    var tokens := PrintPrimary(p) + rest;
    match p
    case NumberLit => assert tokens[1..] == rest;
    case TextLit => assert tokens[1..] == rest;
    case Word(w, obs) =>
      assert tokens[1..] == PrintObservations(obs) + rest;
      ObservationsComplete(obs, rest);
    case Paren(inner) =>
      var after := [Punct(")")] + rest;
      assert tokens[1..] == PrintTernary(inner) + after;
      TernaryComplete(inner, after);
      assert after[1..] == rest;
  }

  lemma {:induction false} UnaryComplete(u: Unary, rest: seq<Token>)
    requires UnaryOk(u) && !Starts(rest, ".")
    ensures ReadUnary(PrintUnary(u) + rest) == Some(rest)
    decreases u
  {
    match u
    case Prefixed(op, operand) =>
      assert (PrintUnary(u) + rest)[1..] == PrintUnary(operand) + rest;
      UnaryComplete(operand, rest);
    case Plain(p) =>
      PrimaryComplete(p, rest);
  }

  lemma {:induction false} BinaryComplete(b: Binary, rest: seq<Token>)
    requires BinaryOk(b) && !Starts(rest, ".") && !StartsBinary(rest)
    ensures ReadBinary(PrintBinary(b) + rest) == Some(rest)
    decreases b
  {
    match b
    case Single(u) =>
      UnaryComplete(u, rest);
    case Chain(u, op, tail) =>
      var after := [Punct(op)] + (PrintBinary(tail) + rest);
      assert PrintBinary(b) + rest == PrintUnary(u) + after;
      UnaryComplete(u, after);
      assert after[1..] == PrintBinary(tail) + rest;
      BinaryComplete(tail, rest);
  }

  lemma {:induction false} TernaryComplete(t: Ternary, rest: seq<Token>)
    requires TernaryOk(t) && !Starts(rest, ".") && !StartsBinary(rest) && !Starts(rest, "?")
    ensures ReadTernary(PrintTernary(t) + rest) == Some(rest)
    decreases t
  {
    match t
    case Flat(b) =>
      BinaryComplete(b, rest);
    case Choice(c, yes, no) =>
      var afterYes := [Punct(":")] + (PrintTernary(no) + rest);
      var after := [Punct("?")] + (PrintTernary(yes) + afterYes);
      assert PrintTernary(t) + rest == PrintBinary(c) + after;
      BinaryComplete(c, after);
      assert after[1..] == PrintTernary(yes) + afterYes;
      TernaryComplete(yes, afterYes);
      assert afterYes[1..] == PrintTernary(no) + rest;
      TernaryComplete(no, rest);
  }

  /** The recognizer accepts exactly the printed forms of the grammar. */
  lemma AcceptsIffDerivable(tokens: seq<Token>)
    ensures Accepts(tokens) <==> Derivable(tokens)
  {
    if Accepts(tokens) {
      var t := TernarySound(tokens);
      assert PrintTernary(t) + [] == PrintTernary(t);
    }
    if Derivable(tokens) {
      var t :| TernaryOk(t) && PrintTernary(t) == tokens;
      TernaryComplete(t, []);
      assert PrintTernary(t) + [] == tokens;
    }
  }
}
