/** The recognizer itself: mutually recursive readers over one cursor. */
module ScalarRecognizer {
  import opened Wrappers
  import opened ScalarGrammar

  class Parser {
    const tokens: seq<Token>
    var cursor: nat

    ghost predicate Valid()
      reads this
    {
      cursor <= |tokens|
    }

    constructor (tokens: seq<Token>)
      ensures Valid() && this.tokens == tokens && cursor == 0
    {
      this.tokens := tokens;
      cursor := 0;
    }

    ghost function Rest(): seq<Token>
      requires Valid()
      reads this
    {
      tokens[cursor..]
    }

    predicate PunctIs(value: string)
      reads this
    {
      cursor < |tokens| && tokens[cursor] == Punct(value)
    }

    method ParsePrimary() returns (ok: bool)
      requires Valid()
      modifies this
      ensures Valid() && cursor >= old(cursor)
      ensures ok <==> ReadPrimary(old(Rest())).Some?
      ensures ok ==> Rest() == ReadPrimary(old(Rest())).value && cursor > old(cursor)
      decreases |tokens| - cursor, 0
    {
      if cursor == |tokens| {
        return false;
      }
      var token := tokens[cursor];
      if token.Number? || token.Text? {
        cursor := cursor + 1;
        return true;
      }
      if token.Ident? {
        cursor := cursor + 1;
        assert Rest() == old(Rest())[1..];
        if !LiteralWord(token.value) {
          while PunctIs(".")
            invariant Valid() && cursor > old(cursor)
            invariant ReadPrimary(old(Rest())) == ReadObservations(Rest())
            decreases |tokens| - cursor
          {
            ghost var before := Rest();
            cursor := cursor + 1;
            if cursor == |tokens| || !tokens[cursor].Ident? || !Observation(tokens[cursor].value) {
              return false;
            }
            cursor := cursor + 1;
            assert Rest() == before[2..];
          }
        }
        return true;
      }
      if token == Punct("(") {
        cursor := cursor + 1;
        assert Rest() == old(Rest())[1..];
        var inner := ParseTernary();
        if !inner {
          return false;
        }
        if !PunctIs(")") {
          return false;
        }
        cursor := cursor + 1;
        return true;
      }
      return false;
    }

    method ParseUnary() returns (ok: bool)
      requires Valid()
      modifies this
      ensures Valid() && cursor >= old(cursor)
      ensures ok <==> ReadUnary(old(Rest())).Some?
      ensures ok ==> Rest() == ReadUnary(old(Rest())).value && cursor > old(cursor)
      decreases |tokens| - cursor, 1
    {
      if cursor < |tokens| && tokens[cursor].Punct? && tokens[cursor].value in UNARY_OPERATORS {
        cursor := cursor + 1;
        assert Rest() == old(Rest())[1..];
        ok := ParseUnary();
      } else {
        ok := ParsePrimary();
      }
    }

    method ParseBinary() returns (ok: bool)
      requires Valid()
      modifies this
      ensures Valid() && cursor >= old(cursor)
      ensures ok <==> ReadBinary(old(Rest())).Some?
      ensures ok ==> Rest() == ReadBinary(old(Rest())).value && cursor > old(cursor)
      decreases |tokens| - cursor, 3
    {
      ok := ParseUnary();
      if !ok {
        return;
      }
      while cursor < |tokens| && tokens[cursor].Punct? && tokens[cursor].value in BINARY_OPERATORS
        invariant Valid() && cursor > old(cursor)
        invariant ReadBinary(old(Rest())) == ReadOperands(Rest())
        decreases |tokens| - cursor
      {
        ghost var before := Rest();
        cursor := cursor + 1;
        assert Rest() == before[1..];
        ok := ParseUnary();
        if !ok {
          return;
        }
      }
      return true;
    }

    method ParseTernary() returns (ok: bool)
      requires Valid()
      modifies this
      ensures Valid() && cursor >= old(cursor)
      ensures ok <==> ReadTernary(old(Rest())).Some?
      ensures ok ==> Rest() == ReadTernary(old(Rest())).value && cursor > old(cursor)
      decreases |tokens| - cursor, 4
    {
      ok := ParseBinary();
      if !ok || !PunctIs("?") {
        return;
      }
      ghost var condition := Rest();
      cursor := cursor + 1;
      assert Rest() == condition[1..];
      ok := ParseTernary();
      if !ok {
        return;
      }
      if !PunctIs(":") {
        return false;
      }
      ghost var yes := Rest();
      cursor := cursor + 1;
      assert Rest() == yes[1..];
      ok := ParseTernary();
    }
  }

  /** A token list is recognized exactly when it derives from the grammar as a whole. */
  method ParseEffectFreeScalar(tokens: seq<Token>) returns (ok: bool)
    ensures ok <==> Accepts(tokens)
    ensures ok <==> Derivable(tokens)
  {
    var parser := new Parser(tokens);
    ok := parser.ParseTernary();
    if ok {
      ok := parser.cursor == |tokens|;
    }
    AcceptsIffDerivable(tokens);
  }
}
