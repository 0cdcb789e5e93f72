/** From the text of an expression to its tokens, over the closed scalar vocabulary. */
module ScalarTokenizer {
  import opened Wrappers
  import opened ScalarGrammar
  import opened QuotedRegions
  import opened ScalarPurity

  // ----- character classes and lexical runs -----

  predicate IsSpace(c: char) {
    c in {'\t', '\n', '\U{000B}', '\U{000C}', '\r', ' ', '\U{00A0}', '\U{1680}', '\U{2028}', '\U{2029}', '\U{202F}',
        '\U{205F}', '\U{3000}', '\U{FEFF}'}
    || '\U{2000}' <= c <= '\U{200A}'
  }

  predicate IsDigit(c: char) {
    '0' <= c <= '9'
  }

  predicate IsHex(c: char) {
    IsDigit(c) || 'a' <= c <= 'f' || 'A' <= c <= 'F'
  }

  predicate IsWordStart(c: char) {
    IsLetter(c) || c == '_' || c == '$'
  }

  predicate IsWordChar(c: char) {
    IsWordStart(c) || IsDigit(c)
  }

  /** Length of the longest prefix of digits, each but the first possibly after one underscore. */
  function DigitRun(u: string): (n: nat)
    ensures n <= |u|
  {
    if |u| >= 1 && IsDigit(u[0]) then 1 + DigitRun(u[1..])
    else if |u| >= 2 && u[0] == '_' && IsDigit(u[1]) then 2 + DigitRun(u[2..])
    else 0
  }

  function HexRun(u: string): (n: nat)
    ensures n <= |u|
  {
    if |u| >= 1 && IsHex(u[0]) then 1 + HexRun(u[1..])
    else if |u| >= 2 && u[0] == '_' && IsHex(u[1]) then 2 + HexRun(u[2..])
    else 0
  }

  function PlainDigitRun(u: string): (n: nat)
    ensures n <= |u|
  {
    if |u| >= 1 && IsDigit(u[0]) then 1 + PlainDigitRun(u[1..]) else 0
  }

  function FractionRun(u: string): (n: nat)
    ensures n <= |u|
  {
    if |u| >= 2 && u[0] == '.' && IsDigit(u[1]) then 1 + DigitRun(u[1..]) else 0
  }

  function ExponentRun(u: string): (n: nat)
    ensures n <= |u|
  {
    if |u| >= 2 && u[0] in {'e', 'E'} && IsDigit(u[1]) then 1 + PlainDigitRun(u[1..])
    else if |u| >= 3 && u[0] in {'e', 'E'} && u[1] in {'+', '-'} && IsDigit(u[2]) then 2 + PlainDigitRun(u[2..])
    else 0
  }

  function SuffixRun(u: string): (n: nat)
    ensures n <= |u|
  {
    if |u| >= 1 && u[0] in {'n', 'N'} then 1 else 0
  }

  predicate RadixNumber(u: string) {
    |u| >= 3 && u[0] == '0' && u[1] in {'x', 'o', 'b', 'X', 'O', 'B'} && IsHex(u[2])
  }

  function DecimalRun(u: string): (n: nat)
    requires |u| > 0 && IsDigit(u[0])
    ensures 0 < n <= |u|
  {
    var d := 1 + DigitRun(u[1..]);
    var f := d + FractionRun(u[d..]);
    f + ExponentRun(u[f..])
  }

  /** Length of the number a text beginning with a digit opens with. */
  function NumberRun(u: string): (n: nat)
    requires |u| > 0 && IsDigit(u[0])
    ensures 0 < n <= |u|
  {
    var n := if RadixNumber(u) then 2 + HexRun(u[2..]) else DecimalRun(u);
    n + SuffixRun(u[n..])
  }

  function WordRun(u: string): (n: nat)
    ensures n <= |u|
  {
    if |u| >= 1 && IsWordChar(u[0]) then 1 + WordRun(u[1..]) else 0
  }

  predicate Opens1(u: string, a: char) {
    |u| >= 1 && u[0] == a
  }

  predicate Opens2(u: string, a: char, b: char) {
    |u| >= 2 && u[0] == a && u[1] == b
  }

  predicate Opens3(u: string, a: char, b: char, c: char) {
    |u| >= 3 && u[0] == a && u[1] == b && u[2] == c
  }

  function FindComparison(u: string): Option<string> {
    if Opens3(u, '=', '=', '=') then Some("===")
    else if Opens3(u, '!', '=', '=') then Some("!==")
    else if Opens2(u, '=', '=') then Some("==")
    else if Opens2(u, '!', '=') then Some("!=")
    else if Opens2(u, '<', '=') then Some("<=")
    else if Opens2(u, '>', '=') then Some(">=")
    else None
  }

  /** The first listed punctuation the text begins with; longer ones are listed first. */
  function FindPunctuation(u: string): Option<string> {
    if Opens3(u, '>', '>', '>') then Some(">>>")
    else if Opens3(u, '=', '=', '=') then Some("===")
    else if Opens3(u, '!', '=', '=') then Some("!==")
    else if Opens2(u, '*', '*') then Some("**")
    else if Opens2(u, '=', '=') then Some("==")
    else if Opens2(u, '!', '=') then Some("!=")
    else if Opens2(u, '<', '=') then Some("<=")
    else if Opens2(u, '>', '=') then Some(">=")
    else if Opens2(u, '&', '&') then Some("&&")
    else if Opens2(u, '|', '|') then Some("||")
    else if Opens2(u, '?', '?') then Some("??")
    else if Opens2(u, '<', '<') then Some("<<")
    else if Opens2(u, '>', '>') then Some(">>")
    else if |u| >= 1 &&
        u[0] in {'(', ')', '?', ':', '.', '+', '-', '*', '/', '%', '<', '>', '!', '~', '&', '|', '^'} then Some([u[0]])
    else None
  }

  lemma FoundLengths(u: string)
    ensures FindComparison(u).Some? ==> 0 < |FindComparison(u).value| <= |u|
    ensures FindPunctuation(u).Some? ==> 0 < |FindPunctuation(u).value| <= |u|
  {
  }

  /** Text that must be a comparison or be rejected: update and assignment forms among it. */
  predicate EqualsFamily(u: string) {
    || Opens2(u, '+', '+') || Opens2(u, '-', '-') || Opens1(u, '=')
    || (|u| >= 2 && u[1] == '=')
  }

  predicate AfterOperand(tokens: seq<Token>) {
    tokens != [] && (!tokens[|tokens| - 1].Punct? || tokens[|tokens| - 1].value == ")")
  }

  // ----- the tokenizer -----

  datatype Turn = Reject | Skip(next: nat) | Emit(token: Token, next: nat)

  ghost predicate EndsOk(value: string, ends: map<nat, nat>) {
    forall k :: k in ends ==> k < ends[k] <= |value|
  }

  /** One turn of the tokenizing loop. */
  function TurnAt(value: string, ends: map<nat, nat>, index: nat, tokens: seq<Token>): (turn: Turn)
    requires EndsOk(value, ends) && index < |value|
    ensures turn != Reject ==> index < turn.next <= |value|
  {
    var c := value[index];
    var u := value[index..];
    FoundLengths(u);
    if IsSpace(c) then Skip(index + 1)
    else if index in ends then Emit(Text, ends[index])
    else if IsQuote(c) then Reject
    else if IsDigit(c) then Emit(Number, index + NumberRun(u))
    else if IsWordStart(c) then
      var word := u[..WordRun(u)];
      if word in NON_SCALAR_WORDS then Reject else Emit(Ident(word), index + |word|)
    else if EqualsFamily(u) then
      var comparison := FindComparison(u);
      if comparison.None? then Reject else Emit(Punct(comparison.value), index + |comparison.value|)
    else if c == '/' && !AfterOperand(tokens) then Reject
    else
      var punctuation := FindPunctuation(u);
      if punctuation.None? then Reject else Emit(Punct(punctuation.value), index + |punctuation.value|)
  }

  function TokensFrom(value: string, ends: map<nat, nat>, index: nat, tokens: seq<Token>): Option<seq<Token>>
    requires EndsOk(value, ends) && index <= |value|
    decreases |value| - index
  {
    if index == |value| then Some(tokens)
    else match TurnAt(value, ends, index, tokens)
      case Reject => None
      case Skip(next) => TokensFrom(value, ends, next, tokens)
      case Emit(token, next) => TokensFrom(value, ends, next, tokens + [token])
  }

  function EndsOf(regions: seq<Region>): map<nat, nat> {
    if regions == [] then map[]
    else
      var last := regions[|regions| - 1];
      EndsOf(regions[..|regions| - 1])[last.start := last.end]
  }

  predicate SomeInterpolates(regions: seq<Region>) {
    exists i :: 0 <= i < |regions| && regions[i].interpolating
  }

  lemma {:induction false} EndsOfIn(regions: seq<Region>, k: nat)
    ensures k in EndsOf(regions) ==>
            exists i :: 0 <= i < |regions| && regions[i].start == k && regions[i].end == EndsOf(regions)[k]
    ensures (exists i :: 0 <= i < |regions| && regions[i].start == k) ==> k in EndsOf(regions)
  {
    if regions != [] {
      EndsOfIn(regions[..|regions| - 1], k);
      if k in EndsOf(regions) && k != regions[|regions| - 1].start {
        var i :| 0 <= i < |regions| - 1 && regions[..|regions| - 1][i].start == k &&
            regions[..|regions| - 1][i].end == EndsOf(regions)[k];
        assert regions[i].start == k;
      }
      if i :| 0 <= i < |regions| && regions[i].start == k {
        if i < |regions| - 1 {
          assert regions[..|regions| - 1][i].start == k;
        }
      }
    }
  }

  lemma EndsOfOk(value: string)
    ensures EndsOk(value, EndsOf(Inspect(value).regions))
  {
    var regions := Inspect(value).regions;
    RegionsOrderedAndComplete(value);
    hide Inspect, Delimited;
    forall k | k in EndsOf(regions)
      ensures k < EndsOf(regions)[k] <= |value|
    {
      EndsOfIn(regions, k);
    }
  }

  function Tokenize(value: string): Option<seq<Token>> {
    var inspection := Inspect(value);
    if inspection.unbalanced || SomeInterpolates(inspection.regions) then None
    else
      EndsOfOk(value);
      TokensFrom(value, EndsOf(inspection.regions), 0, [])
  }

  method TokenizeScalarExpression(value: string) returns (result: Option<seq<Token>>)
    ensures result == Tokenize(value)
  {
    hide Inspect, NumberRun, WordRun, FindComparison, FindPunctuation, EqualsFamily, IsSpace, IsQuote, IsDigit,
        IsWordStart;
    hide NON_SCALAR_WORDS, EndsOf, AfterOperand, SomeInterpolates;
    var quoted := InspectQuotedRegions(value);
    if quoted.unbalanced || SomeInterpolates(quoted.regions) {
      return None;
    }
    EndsOfOk(value);
    var stringEnds := EndsOf(quoted.regions);
    var tokens: seq<Token> := [];
    var index := 0;
    while index < |value|
      invariant 0 <= index <= |value|
      invariant TokensFrom(value, stringEnds, 0, []) == TokensFrom(value, stringEnds, index, tokens)
    {
      var character := value[index];
      var rest := value[index..];
      FoundLengths(rest);
      if IsSpace(character) {
        index := index + 1;
      } else if index in stringEnds {
        tokens, index := tokens + [Text], stringEnds[index];
      } else if IsQuote(character) {
        return None;
      } else if IsDigit(character) {
        tokens, index := tokens + [Number], index + NumberRun(rest);
      } else if IsWordStart(character) {
        var word := rest[..WordRun(rest)];
        if word in NON_SCALAR_WORDS {
          return None;
        }
        tokens, index := tokens + [Ident(word)], index + |word|;
      } else if EqualsFamily(rest) {
        var comparison := FindComparison(rest);
        if comparison.None? {
          return None;
        }
        tokens, index := tokens + [Punct(comparison.value)], index + |comparison.value|;
      } else {
        if character == '/' && !AfterOperand(tokens) {
          return None;
        }
        var punctuation := FindPunctuation(rest);
        if punctuation.None? {
          return None;
        }
        tokens, index := tokens + [Punct(punctuation.value)], index + |punctuation.value|;
      }
    }
    return Some(tokens);
  }
}
