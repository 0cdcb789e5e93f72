/** Splitting changed lines into bounded local statements. */
module LocalStatements {
  import opened ScalarTokenizer
  import opened ScalarLayout
  import opened ScalarText

  function Concat(pieces: seq<string>): string {
    if pieces == [] then "" else Concat(pieces[..|pieces| - 1]) + pieces[|pieces| - 1]
  }

  /** The text without its white space. */
  function Squash(text: string): string {
    if text == "" then ""
    else
      var before := Squash(text[..|text| - 1]);
      if IsSpace(text[|text| - 1]) then before else before + [text[|text| - 1]]
  }

  lemma {:induction false} SquashConcat(a: string, b: string)
    ensures Squash(a + b) == Squash(a) + Squash(b)
    decreases |b|
  {
    if b == "" {
      assert a + b == a;
    } else {
      var front := b[..|b| - 1];
      assert (a + b)[..|a + b| - 1] == a + front;
      SquashConcat(a, front);
    }
  }

  lemma {:induction false} SquashTrim(text: string)
    ensures Squash(Trim(text)) == Squash(text)
    decreases |text|
  {
    if text != "" && IsSpace(text[0]) {
      SquashTrim(text[1..]);
      SquashConcat([text[0]], text[1..]);
      assert text == [text[0]] + text[1..];
      assert [text[0]][..0] == "";
    } else if text != "" && IsSpace(text[|text| - 1]) {
      SquashTrim(text[..|text| - 1]);
    }
  }

  lemma {:induction false} TrimEnds(text: string)
    ensures var t := Trim(text); t != "" ==> !IsSpace(t[0]) && !IsSpace(t[|t| - 1])
    decreases |text|
  {
    if text != "" && IsSpace(text[0]) {
      TrimEnds(text[1..]);
    } else if text != "" && IsSpace(text[|text| - 1]) {
      TrimEnds(text[..|text| - 1]);
    }
  }

  /** The text, trailing white space aside, ends in an operator that wants more. */
  predicate Continues(text: string) {
    if text == "" then false
    else if IsSpace(text[|text| - 1]) then Continues(text[..|text| - 1])
    else
      || text[|text| - 1] in {'=', ',', ':', '?', '+', '-', '*', '/'}
      || (|text| >= 2 && text[|text| - 1] == text[|text| - 2] && text[|text| - 1] in {'&', '|'})
  }

  /** The endings that want more. */
  const CONTINUATIONS: set<string> := {"=", ",", ":", "?", "+", "-", "*", "/", "&&", "||", "??"}

  ghost predicate EndsWanting(text: string) {
    exists before: string, mark: string, gap: string {:trigger before + (mark + gap)} ::
      mark in CONTINUATIONS && Blank(gap) && text == before + (mark + gap)
  }

  /** The text wants more exactly when, white space aside, it ends in one of them. */
  lemma {:induction false} ContinuesIff(text: string)
    ensures Continues(text) <==> EndsWanting(text)
    decreases |text|
  {
    hide CONTINUATIONS;
    if text != "" && IsSpace(text[|text| - 1]) {
      var front := text[..|text| - 1];
      ContinuesIff(front);
      SpaceKeeps(text);
    } else {
      LastMark(text);
    }
  }

  lemma SpaceKeeps(text: string)
    requires text != "" && IsSpace(text[|text| - 1])
    ensures EndsWanting(text) <==> EndsWanting(text[..|text| - 1])
  {
    var front, last := text[..|text| - 1], [text[|text| - 1]];
    if EndsWanting(front) {
      var before: string, mark: string, gap: string :|
        mark in CONTINUATIONS && Blank(gap) && front == before + (mark + gap);
      assert text == before + (mark + (gap + last)) && Blank(gap + last);
    }
    if EndsWanting(text) {
      var before: string, mark: string, gap: string :|
        mark in CONTINUATIONS && Blank(gap) && text == before + (mark + gap);
      MarksAreDark(mark);
      if gap == "" {
        assert text[|text| - 1] == mark[|mark| - 1];
      } else {
        assert front == before + (mark + gap[..|gap| - 1]);
      }
    }
  }

  lemma MarksAreDark(mark: string)
    requires mark in CONTINUATIONS
    ensures mark != "" && !IsSpace(mark[|mark| - 1])
  {
  }

  /** One of the characters, or one of the doubled ones. */
  lemma MarksAre(mark: string)
    ensures mark in CONTINUATIONS <==>
      || (|mark| == 1 && mark[0] in {'=', ',', ':', '?', '+', '-', '*', '/'})
      || (|mark| == 2 && mark[0] == mark[1] && mark[0] in {'&', '|', '?'})
  {
    if |mark| == 1 {
      assert mark == [mark[0]];
    } else if |mark| == 2 {
      assert mark == [mark[0], mark[1]];
    }
  }

  lemma LastMark(text: string)
    requires text == "" || !IsSpace(text[|text| - 1])
    ensures Continues(text) <==> EndsWanting(text)
  {
    hide CONTINUATIONS, Continues, EndsWanting, IsSpace;
    NothingContinues();
    if Continues(text) {
      WantingFrom(text);
    }
    if EndsWanting(text) {
      WantingTo(text);
    }
  }

  lemma NothingContinues()
    ensures !Continues("")
  {
  }

  lemma WantingFrom(text: string)
    requires Continues(text) && text != "" && !IsSpace(text[|text| - 1])
    ensures EndsWanting(text)
  {
    hide IsSpace, CONTINUATIONS;
    var c := text[|text| - 1];
    var mark := if c in {'=', ',', ':', '?', '+', '-', '*', '/'} then [c] else [c, c];
    MarksAre(mark);
    Wanting(text, text[..|text| - |mark|], mark);
  }

  lemma Wanting(text: string, before: string, mark: string)
    requires mark in CONTINUATIONS && text == before + mark
    ensures EndsWanting(text)
  {
    hide CONTINUATIONS;
    assert text == before + (mark + "");
  }

  lemma LastOfGap(before: string, mark: string, gap: string)
    requires gap != ""
    ensures var text := before + (mark + gap); text[|text| - 1] == gap[|gap| - 1]
  {
  }

  lemma GapEmpty(before: string, mark: string, gap: string)
    requires var text := before + (mark + gap); text == "" || !IsSpace(text[|text| - 1])
    requires Blank(gap)
    ensures gap == ""
  {
    hide IsSpace;
    if gap != "" {
      LastOfGap(before, mark, gap);
    }
  }

  lemma WantingTo(text: string)
    requires EndsWanting(text) && (text == "" || !IsSpace(text[|text| - 1]))
    ensures Continues(text)
  {
    hide IsSpace, Continues, CONTINUATIONS;
    var before: string, mark: string, gap: string :|
      mark in CONTINUATIONS && Blank(gap) && text == before + (mark + gap);
    GapEmpty(before, mark, gap);
    assert text == before + mark;
    MarkContinues(before, mark);
  }

  lemma MarkContinues(before: string, mark: string)
    requires mark in CONTINUATIONS && (before + mark == "" || !IsSpace((before + mark)[|before + mark| - 1]))
    ensures Continues(before + mark)
  {
    hide IsSpace, CONTINUATIONS;
    MarksAre(mark);
    var text := before + mark;
    assert text[|text| - 1] == mark[|mark| - 1];
    assert |mark| == 2 ==> text[|text| - 2] == mark[0];
  }

  ghost predicate Trimmed(statements: seq<string>) {
    forall i :: 0 <= i < |statements| ==>
      statements[i] != "" && !IsSpace(statements[i][0]) && !IsSpace(statements[i][|statements[i]| - 1])
  }

  // ----- where a statement may end -----

  /** Bracket depths and quote state, as the splitter tracks them. */
  datatype Lexer = Lexer(parentheses: nat, brackets: nat, inQuote: bool, quote: char, escaped: bool)

  function Next(st: Lexer, c: char): Lexer {
    if st.inQuote then
      if st.escaped then st.(escaped := false)
      else if c == '\\' then st.(escaped := true)
      else if c == st.quote then st.(inQuote := false)
      else st
    else if c == '\'' || c == '"' || c == '`' then st.(inQuote := true, quote := c)
    else if c == '(' then st.(parentheses := st.parentheses + 1)
    else if c == ')' then st.(parentheses := if st.parentheses > 0 then st.parentheses - 1 else 0)
    else if c == '[' then st.(brackets := st.brackets + 1)
    else if c == ']' then st.(brackets := if st.brackets > 0 then st.brackets - 1 else 0)
    else st
  }

  function LexerAfter(text: string): Lexer {
    if text == "" then Lexer(0, 0, false, '"', false)
    else Next(LexerAfter(text[..|text| - 1]), text[|text| - 1])
  }

  /** Outside every bracket and quote. */
  predicate Neutral(text: string) {
    var st := LexerAfter(text);
    st.parentheses == 0 && st.brackets == 0 && !st.inQuote
  }

  function From(cuts: seq<nat>, i: nat): nat
    requires i <= |cuts|
  {
    if i == 0 then 0 else cuts[i - 1]
  }

  /** The statements are, white space aside, the consecutive pieces of the text up to each cut. */
  ghost predicate Pieces(text: string, statements: seq<string>, cuts: seq<nat>) {
    && |cuts| == |statements|
    && (forall i :: 0 <= i < |cuts| ==> From(cuts, i) <= cuts[i] <= |text|)
    && (forall i :: 0 <= i < |cuts| ==> Squash(statements[i]) == Squash(text[From(cuts, i)..cuts[i]]))
  }

  /** Every cut, but one at the very end of the text, is outside brackets and quotes. */
  ghost predicate CutsNeutral(text: string, cuts: seq<nat>) {
    forall i :: 0 <= i < |cuts| && cuts[i] < |text| ==> Neutral(text[..cuts[i]])
  }

  /** A semicolon outside brackets and quotes always ends a statement. */
  ghost predicate SemicolonsCut(text: string, cuts: seq<nat>) {
    forall k :: 0 <= k < |text| && text[k] == ';' && Neutral(text[..k]) ==> k + 1 in cuts
  }

  ghost predicate Divides(text: string, statements: seq<string>, cuts: seq<nat>) {
    Pieces(text, statements, cuts) && CutsNeutral(text, cuts) && SemicolonsCut(text, cuts)
  }

  /** The division of the text read so far; what follows the last cut is in the buffer. */
  ghost predicate Dividing(text: string, statements: seq<string>, cuts: seq<nat>, buffer: string) {
    && Pieces(text, statements, cuts)
    && From(cuts, |cuts|) <= |text|
    && Squash(text[From(cuts, |cuts|)..]) == Squash(buffer)
    && (forall i :: 0 <= i < |cuts| && cuts[i] <= |text| ==> Neutral(text[..cuts[i]]))
  }

  lemma ReadCharacter(text: string, statements: seq<string>, cuts: seq<nat>, buffer: string, c: char)
    requires Dividing(text, statements, cuts, buffer)
    ensures Dividing(text + [c], statements, cuts, buffer + [c])
  {
    hide Neutral, Squash;
    var longer := text + [c];
    var last := From(cuts, |cuts|);
    assert longer[last..] == text[last..] + [c];
    SquashConcat(text[last..], [c]);
    SquashConcat(buffer, [c]);
    forall i | 0 <= i < |cuts|
      ensures longer[..cuts[i]] == text[..cuts[i]] && longer[From(cuts, i)..cuts[i]] == text[From(cuts, i)..cuts[i]]
    {
    }
  }

  lemma ReadSemicolons(text: string, cuts: seq<nat>, c: char)
    requires SemicolonsCut(text, cuts) && !(c == ';' && Neutral(text))
    ensures SemicolonsCut(text + [c], cuts)
  {
    hide Neutral;
    var longer := text + [c];
    forall k | 0 <= k < |longer| && longer[k] == ';' && Neutral(longer[..k])
      ensures k + 1 in cuts
    {
      assert longer[..k] == text[..k] && text[..|text|] == text;
    }
  }

  lemma CutSemicolons(text: string, cuts: seq<nat>)
    requires SemicolonsCut(text, cuts)
    ensures SemicolonsCut(text + ";", cuts + [|text| + 1])
  {
    hide Neutral;
    var longer := text + ";";
    forall k | 0 <= k < |longer| && longer[k] == ';' && Neutral(longer[..k])
      ensures k + 1 in cuts + [|text| + 1]
    {
      assert longer[..k] == text[..k];
    }
  }

  /** A flush with something in the buffer records a cut at the end of the text read so far. */
  ghost function Recorded(cuts: seq<nat>, text: string, buffer: string): seq<nat> {
    if Trim(buffer) == "" then cuts else cuts + [|text|]
  }

  function Flushed(statements: seq<string>, buffer: string): seq<string> {
    if Trim(buffer) == "" then statements else statements + [Trim(buffer)]
  }

  lemma FlushPieces(text: string, statements: seq<string>, cuts: seq<nat>, buffer: string)
    requires Dividing(text, statements, cuts, buffer)
    ensures Pieces(text, Flushed(statements, buffer), Recorded(cuts, text, buffer))
    ensures From(Recorded(cuts, text, buffer), |Recorded(cuts, text, buffer)|) <= |text|
    ensures Squash(text[From(Recorded(cuts, text, buffer), |Recorded(cuts, text, buffer)|)..]) == ""
  {
    hide Neutral, Trim, Squash;
    SquashTrim(buffer);
    NothingLeft();
    var now := Recorded(cuts, text, buffer);
    var last := From(cuts, |cuts|);
    assert text[last..|text|] == text[last..] && text[|text|..] == "";
    forall i | 0 <= i < |cuts|
      ensures now[i] == cuts[i] && From(now, i) == From(cuts, i)
    {
    }
  }

  lemma FlushNeutral(text: string, statements: seq<string>, cuts: seq<nat>, buffer: string)
    requires Dividing(text, statements, cuts, buffer)
    ensures CutsNeutral(text, Recorded(cuts, text, buffer))
    ensures Neutral(text) ==> Dividing(text, Flushed(statements, buffer), Recorded(cuts, text, buffer), "")
  {
    hide Neutral, Trim, Pieces, Squash;
    FlushPieces(text, statements, cuts, buffer);
    NothingLeft();
    assert text[..|text|] == text;
  }

  lemma NothingLeft()
    ensures Squash("") == ""
  {
  }

  lemma RecordedSemicolons(text: string, cuts: seq<nat>, buffer: string)
    requires SemicolonsCut(text, cuts)
    ensures SemicolonsCut(text, Recorded(cuts, text, buffer))
  {
    hide Neutral, Trim;
  }

  lemma SemicolonFlushes(buffer: string)
    ensures Trim(buffer + ";") != ""
  {
    SquashTrim(buffer + ";");
    SquashConcat(buffer, ";");
    assert ";"[..0] == "";
    assert Squash(";") == ";";
  }

  lemma SemicolonNeutral(text: string)
    requires Neutral(text)
    ensures Neutral(text + ";")
  {
    assert (text + ";")[..|text|] == text;
  }

  method Flush(statements: seq<string>, buffer: string) returns (flushed: seq<string>)
    requires Trimmed(statements)
    ensures Trimmed(flushed) && flushed == Flushed(statements, buffer)
  {
    hide IsSpace;
    var statement := Trim(buffer);
    flushed := statements;
    TrimEnds(buffer);
    if statement != "" {
      flushed := statements + [statement];
    }
  }

  // ----- why a cut stands where it does -----

  /** Position of the end of line `m` in the text. */
  function End(lines: seq<string>, m: nat): nat
    requires m < |lines|
  {
    |Concat(lines[..m + 1])|
  }

  /** The last cut before position `e`, or the start of the text. */
  function LastBefore(cuts: seq<nat>, e: nat): (c: nat)
    ensures c <= e
  {
    if cuts == [] then 0
    else if cuts[|cuts| - 1] < e then cuts[|cuts| - 1]
    else LastBefore(cuts[..|cuts| - 1], e)
  }

  /** The lines read, from position `c` of their text on, with a line feed between lines. */
  function Since(read: seq<string>, c: nat): string {
    if read == [] then ""
    else
      var n := |read| - 1;
      var start := |Concat(read[..n])|;
      if start < c then (if c - start <= |read[n]| then read[n][c - start..] else "")
      else if n == 0 then read[n]
      else Since(read[..n], c) + "\n" + read[n]
  }

  /** What stands since the last cut at the end of line `m`. */
  function Pending(lines: seq<string>, m: nat, cuts: seq<nat>): string
    requires m < |lines|
  {
    Since(lines[..m + 1], LastBefore(cuts, End(lines, m)))
  }

  /** The end of line `m` ends a statement: nothing is open there and the text wants no more. */
  predicate Complete(lines: seq<string>, m: nat, cuts: seq<nat>)
    requires m < |lines|
  {
    var pending := Pending(lines, m, cuts);
    Neutral(Concat(lines[..m + 1])) && Trim(pending) != "" && !Continues(pending)
  }

  predicate AfterSemicolon(text: string, c: nat) {
    0 < c <= |text| && text[c - 1] == ';' && Neutral(text[..c - 1])
  }

  ghost predicate AtLineEnd(lines: seq<string>, l: nat, c: nat)
    requires l <= |lines|
  {
    exists m :: 0 <= m < l && End(lines, m) == c
  }

  /** Every cut follows a semicolon or stands at the end of one of the first `l` lines. */
  ghost predicate CutsPlaced(lines: seq<string>, l: nat, text: string, cuts: seq<nat>)
    requires l <= |lines|
  {
    forall c :: c in cuts ==> AfterSemicolon(text, c) || AtLineEnd(lines, l, c)
  }

  ghost predicate LineEndsCut(lines: seq<string>, l: nat, cuts: seq<nat>)
    requires l <= |lines|
  {
    forall m :: 0 <= m < l ==> (End(lines, m) in cuts <==> Complete(lines, m, cuts))
  }

  /** At the very end whatever is pending becomes a statement; before that only what is complete. */
  ghost predicate LinesCut(lines: seq<string>, cuts: seq<nat>) {
    forall m :: 0 <= m < |lines| ==>
      (End(lines, m) in cuts <==>
        if End(lines, m) == |Concat(lines)| then Trim(Pending(lines, m, cuts)) != "" else Complete(lines, m, cuts))
  }

  lemma {:induction false} EndsGrow(lines: seq<string>, m: nat, l: nat)
    requires m < l <= |lines|
    ensures End(lines, m) <= |Concat(lines[..l])|
    decreases l
  {
    LineRead(lines, l - 1);
    if m < l - 1 {
      EndsGrow(lines, m, l - 1);
    }
  }

  // ----- white space does not matter to the decision -----

  lemma {:induction false} TrimEmptyIff(text: string)
    ensures Trim(text) == "" <==> Squash(text) == ""
  {
    hide IsSpace;
    SquashTrim(text);
    TrimEnds(text);
    NothingLeft();
  }

  lemma {:induction false} ContinuesStart(gap: string, v: string)
    requires Blank(gap)
    ensures Continues(gap + v) == Continues(v)
    decreases |gap| + |v|
  {
    hide IsSpace;
    var all := gap + v;
    if v != "" && IsSpace(v[|v| - 1]) {
      assert all[..|all| - 1] == gap + v[..|v| - 1];
      ContinuesStart(gap, v[..|v| - 1]);
    } else if v == "" && gap != "" {
      assert all[..|all| - 1] == gap[..|gap| - 1] + v;
      ContinuesStart(gap[..|gap| - 1], v);
    } else if |v| == 1 && gap != "" {
      SpaceJoinsNothing(gap[|gap| - 1]);
    }
  }

  lemma SpaceJoinsNothing(c: char)
    requires IsSpace(c)
    ensures c != '&' && c != '|'
  {
  }

  /** The buffer is the text since the last cut, but for white space at its start. */
  ghost predicate Buffered(read: seq<string>, cuts: seq<nat>, buffer: string) {
    Residue(Since(read, From(cuts, |cuts|)), buffer)
  }

  ghost predicate Residue(since: string, buffer: string) {
    && |buffer| <= |since|
    && since == since[..|since| - |buffer|] + buffer
    && Blank(since[..|since| - |buffer|])
  }

  lemma ResidueDecides(since: string, buffer: string)
    requires Residue(since, buffer)
    ensures Trim(since) == Trim(buffer) && Continues(since) == Continues(buffer)
  {
    hide Blank;
    var gap := since[..|since| - |buffer|];
    TrimStart(gap, buffer);
    ContinuesStart(gap, buffer);
  }

  lemma ResidueAppend(since: string, buffer: string, more: string)
    requires Residue(since, buffer)
    ensures Residue(since + more, buffer + more)
  {
    assert (since + more)[..|since| - |buffer|] == since[..|since| - |buffer|];
  }

  lemma ResidueDropped(since: string, buffer: string)
    requires Residue(since, buffer) && Trim(buffer) == ""
    ensures Residue(since, "")
  {
    hide IsSpace;
    AllBlank(buffer);
    assert since[..|since| - 0] == since;
  }

  lemma {:induction false} AllBlank(text: string)
    requires Trim(text) == ""
    ensures Blank(text)
    decreases |text|
  {
    hide IsSpace;
    if text != "" {
      if IsSpace(text[0]) {
        AllBlank(text[1..]);
        assert text == [text[0]] + text[1..];
      } else {
        AllBlank(text[..|text| - 1]);
      }
    }
  }

  lemma SinceAppend(front: seq<string>, x: string, c: nat, ch: char)
    requires c <= |Concat(front)| + |x|
    ensures Since(front + [x + [ch]], c) == Since(front + [x], c) + [ch]
  {
    var n := |front|;
    assert (front + [x + [ch]])[..n] == front && (front + [x])[..n] == front;
    if n > 0 && c <= |Concat(front)| {
      var before := Since(front, c);
      assert before + "\n" + (x + [ch]) == before + "\n" + x + [ch];
    }
  }

  lemma SinceNewLine(read: seq<string>, c: nat)
    requires read != [] && c <= |Concat(read)|
    ensures Since(read + [""], c) == Since(read, c) + "\n"
  {
    assert (read + [""])[..|read|] == read;
  }

  lemma {:induction false} SinceNothing(read: seq<string>)
    requires read != []
    ensures Blank(Since(read, |Concat(read)|))
    decreases |read|
  {
    var n := |read| - 1;
    var start := |Concat(read[..n])|;
    if read[n] == "" && n > 0 {
      SinceNothing(read[..n]);
    }
  }

  // ----- several lines may end at one position -----

  lemma NewlineDecides(pending: string)
    ensures Trim(pending + "\n") == "" <==> Trim(pending) == ""
    ensures Continues(pending + "\n") == Continues(pending)
  {
    hide Squash, Trim;
    NewlineVanishes(pending);
    TrimEmptyIff(pending);
    TrimEmptyIff(pending + "\n");
    assert (pending + "\n")[..|pending|] == pending;
  }

  lemma {:induction false} SameEnd(lines: seq<string>, m: nat, l: nat, cuts: seq<nat>)
    requires m <= l < |lines| && End(lines, m) == End(lines, l)
    ensures Concat(lines[..m + 1]) == Concat(lines[..l + 1])
    ensures Trim(Pending(lines, m, cuts)) == "" <==> Trim(Pending(lines, l, cuts)) == ""
    ensures Continues(Pending(lines, m, cuts)) == Continues(Pending(lines, l, cuts))
    decreases l
  {
    hide Continues, Trim, LastBefore;
    if m < l {
      EndsGrow(lines, m, l);
      LineRead(lines, l);
      assert lines[l] == "";
      SameEnd(lines, m, l - 1, cuts);
      var c := LastBefore(cuts, End(lines, l));
      assert lines[..l + 1] == lines[..l] + [""];
      SinceNewLine(lines[..l], c);
      NewlineDecides(Since(lines[..l], c));
    }
  }

  lemma CompleteSameEnd(lines: seq<string>, m: nat, l: nat, cuts: seq<nat>)
    requires m <= l < |lines| && End(lines, m) == End(lines, l)
    ensures Complete(lines, m, cuts) <==> Complete(lines, l, cuts)
  {
    hide Continues, Trim, Neutral, Pending;
    SameEnd(lines, m, l, cuts);
  }

  lemma LastBeforeLater(cuts: seq<nat>, c: nat, e: nat)
    requires e <= c
    ensures LastBefore(cuts + [c], e) == LastBefore(cuts, e)
  {
    assert (cuts + [c])[..|cuts|] == cuts;
  }

  // ----- reading on -----

  /** The account of the cuts after the first `l` lines and `text`. */
  ghost predicate Explained(lines: seq<string>, l: nat, text: string, cuts: seq<nat>)
    requires l <= |lines|
  {
    CutsPlaced(lines, l, text, cuts) && LineEndsCut(lines, l, cuts)
  }

  lemma ExplainCharacter(lines: seq<string>, l: nat, text: string, cuts: seq<nat>, ch: char)
    requires l <= |lines| && Explained(lines, l, text, cuts)
    ensures Explained(lines, l, text + [ch], cuts)
  {
    hide Neutral, Complete, End;
    forall c | c in cuts && AfterSemicolon(text, c)
      ensures AfterSemicolon(text + [ch], c)
    {
      assert (text + [ch])[..c - 1] == text[..c - 1];
    }
  }

  lemma ExplainSemicolon(lines: seq<string>, l: nat, text: string, cuts: seq<nat>)
    requires l <= |lines| && |Concat(lines[..l])| <= |text| && Explained(lines, l, text, cuts) && Neutral(text)
    ensures Explained(lines, l, text + ";", cuts + [|text| + 1])
  {
    hide Neutral, End, Concat, LastBefore, Trim, Continues;
    ExplainCharacter(lines, l, text, cuts, ';');
    assert (text + ";")[..|text|] == text;
    forall m | 0 <= m < l
      ensures End(lines, m) < |text| + 1 &&
              LastBefore(cuts + [|text| + 1], End(lines, m)) == LastBefore(cuts, End(lines, m))
    {
      EndsBefore(lines, m, l, text);
      LastBeforeLater(cuts, |text| + 1, End(lines, m));
    }
  }

  lemma EndsBefore(lines: seq<string>, m: nat, l: nat, text: string)
    requires m < l <= |lines| && |Concat(lines[..l])| <= |text|
    ensures End(lines, m) <= |text|
  {
    EndsGrow(lines, m, l);
  }

  /** A line end already cut has a complete statement before it. */
  lemma CutIsComplete(lines: seq<string>, l: nat, cuts: seq<nat>)
    requires l < |lines| && Explained(lines, l, Concat(lines[..l + 1]), cuts) && End(lines, l) in cuts
    ensures Complete(lines, l, cuts)
  {
    hide Complete, Continues, Trim, Neutral, LastBefore;
    var e, text := End(lines, l), Concat(lines[..l + 1]);
    LineRead(lines, l);
    if lines[l] == "" && l > 0 {
      assert End(lines, l - 1) == e;
      CompleteSameEnd(lines, l - 1, l, cuts);
    } else if AtLineEnd(lines, l, e) {
      var m :| 0 <= m < l && End(lines, m) == e;
      CompleteSameEnd(lines, m, l, cuts);
    } else {
      SemicolonCompletes(lines, l, cuts);
    }
  }

  lemma SemicolonCompletes(lines: seq<string>, l: nat, cuts: seq<nat>)
    requires l < |lines| && AfterSemicolon(Concat(lines[..l + 1]), End(lines, l)) && (lines[l] != "" || l == 0)
    ensures Complete(lines, l, cuts)
  {
    hide Neutral, Trim;
    var e, text := End(lines, l), Concat(lines[..l + 1]);
    LineRead(lines, l);
    var c := LastBefore(cuts, e);
    assert lines[l] != "" && lines[l][|lines[l]| - 1] == text[e - 1] == ';';
    LastBeforeLess(cuts, e);
    var pending := Pending(lines, l, cuts);
    assert lines[..l + 1][..l] == lines[..l];
    assert pending != "" && pending[|pending| - 1] == ';';
    EndsInSemicolon(pending);
    SemicolonNeutral(text[..e - 1]);
    assert text == text[..e - 1] + ";";
  }

  lemma LastBeforeLess(cuts: seq<nat>, e: nat)
    requires e > 0
    ensures LastBefore(cuts, e) < e
  {
  }

  lemma EndsInSemicolon(pending: string)
    requires pending != "" && pending[|pending| - 1] == ';'
    ensures Trim(pending) != "" && !Continues(pending)
  {
    hide Trim, Continues;
    var before := pending[..|pending| - 1];
    assert pending == before + ";";
    SemicolonFlushes(before);
    SemicolonWantsNoMore(before);
  }

  lemma SemicolonWantsNoMore(before: string)
    ensures !Continues(before + ";")
  {
  }

  lemma UncutLast(cuts: seq<nat>, e: nat)
    requires e !in cuts && From(cuts, |cuts|) <= e
    ensures LastBefore(cuts, e) == From(cuts, |cuts|)
  {
  }

  /** What a cut at the end of line `l` leaves of the line ends before it. */
  lemma EarlierEnd(lines: seq<string>, m: nat, l: nat, cuts: seq<nat>, now: seq<nat>)
    requires m < l < |lines| && LineEndsCut(lines, l, cuts)
    requires now == cuts || now == cuts + [End(lines, l)]
    requires End(lines, l) in now <==> Complete(lines, l, now)
    ensures End(lines, m) in now <==> Complete(lines, m, now)
  {
    hide Trim, Continues, Neutral, LastBefore, End;
    EndsGrow(lines, m, l + 1);
    EndIs(lines, l);
    if now != cuts {
      if End(lines, m) == End(lines, l) {
        CompleteSameEnd(lines, m, l, now);
      } else {
        LastBeforeLater(cuts, End(lines, l), End(lines, m));
      }
    }
  }

  lemma EndIs(lines: seq<string>, l: nat)
    requires l < |lines|
    ensures End(lines, l) == |Concat(lines[..l + 1])|
  {
  }

  /** The decision at the end of line `l`, taken on the buffer, is the one on the text since the last cut. */
  lemma ExplainLineEnd(lines: seq<string>, l: nat, cuts: seq<nat>, buffer: string, now: seq<nat>)
    requires l < |lines| && Explained(lines, l, Concat(lines[..l + 1]), cuts)
    requires Buffered(lines[..l + 1], cuts, buffer) && From(cuts, |cuts|) <= End(lines, l)
    requires var text := Concat(lines[..l + 1]);
             now == if Neutral(text) && !Continues(buffer) then Recorded(cuts, text, buffer) else cuts
    ensures Explained(lines, l + 1, Concat(lines[..l + 1]), now)
  {
    hide Trim, Continues, Neutral, Concat, LastBefore, AfterSemicolon;
    var e, text := End(lines, l), Concat(lines[..l + 1]);
    if e in cuts {
      CutIsComplete(lines, l, cuts);
    } else {
      UncutLast(cuts, e);
      ResidueDecides(Pending(lines, l, cuts), buffer);
    }
    LastBeforeLater(cuts, e, e);
    assert End(lines, l) in now <==> Complete(lines, l, now);
    forall m | 0 <= m < l
      ensures End(lines, m) in now <==> Complete(lines, m, now)
    {
      EarlierEnd(lines, m, l, cuts, now);
    }
    forall c | c in now
      ensures AfterSemicolon(text, c) || AtLineEnd(lines, l + 1, c)
    {
      if c in cuts && AtLineEnd(lines, l, c) {
        var m :| 0 <= m < l && End(lines, m) == c;
      }
    }
  }

  /** After a flush nothing is pending but line feeds. */
  lemma BufferedAfterCut(read: seq<string>, cuts: seq<nat>, buffer: string)
    requires read != [] && Buffered(read, cuts, buffer) && From(cuts, |cuts|) <= |Concat(read)|
    ensures Buffered(read, Recorded(cuts, Concat(read), buffer), "")
  {
    hide Since, Trim, Concat;
    if Trim(buffer) == "" {
      ResidueDropped(Since(read, From(cuts, |cuts|)), buffer);
    } else {
      SinceNothing(read);
      var since := Since(read, |Concat(read)|);
      assert since[..|since| - 0] == since;
    }
  }

  lemma BufferedNewLine(read: seq<string>, cuts: seq<nat>, buffer: string, cut: bool)
    requires read != [] && Buffered(read, cuts, buffer) && From(cuts, |cuts|) <= |Concat(read)| &&
             (cut ==> buffer == "")
    ensures Buffered(read + [""], cuts, if cut then "" else buffer + "\n")
  {
    hide Since, Concat;
    var since := Since(read, From(cuts, |cuts|));
    SinceNewLine(read, From(cuts, |cuts|));
    if cut {
      assert (since + "\n")[..|since| + 1 - 0] == since + "\n";
      assert since[..|since| - 0] == since;
    } else {
      ResidueAppend(since, buffer, "\n");
    }
  }

  lemma BufferedCharacter(front: seq<string>, x: string, cuts: seq<nat>, buffer: string, ch: char)
    requires Buffered(front + [x], cuts, buffer) && From(cuts, |cuts|) <= |Concat(front)| + |x|
    ensures Buffered(front + [x + [ch]], cuts, buffer + [ch])
  {
    hide Since, Concat;
    SinceAppend(front, x, From(cuts, |cuts|), ch);
    ResidueAppend(Since(front + [x], From(cuts, |cuts|)), buffer, [ch]);
  }

  /** The last flush: what is pending at the very end becomes a statement. */
  lemma ExplainEnd(lines: seq<string>, cuts: seq<nat>, buffer: string)
    requires Explained(lines, |lines|, Concat(lines), cuts) && From(cuts, |cuts|) <= |Concat(lines)|
    requires if lines == [] then buffer == "" else Buffered(lines + [""], cuts, buffer)
    ensures var now := Recorded(cuts, Concat(lines), buffer);
            CutsPlaced(lines, |lines|, Concat(lines), now) && LinesCut(lines, now)
  {
    hide Trim, Continues, Neutral, Concat, LastBefore, AfterSemicolon, Complete;
    var text, now := Concat(lines), Recorded(cuts, Concat(lines), buffer);
    assert lines[..|lines|] == lines;
    if lines == [] {
      assert Trim("") == "" by {
        TrimEmptyIff("");
      }
    } else {
      var last := |lines| - 1;
      assert End(lines, last) == |text|;
      forall m | 0 <= m < |lines|
        ensures End(lines, m) in now <==>
                if End(lines, m) == |text| then Trim(Pending(lines, m, now)) != "" else Complete(lines, m, now)
      {
        FinalEnd(lines, m, cuts, buffer);
      }
    }
  }

  lemma FinalEnd(lines: seq<string>, m: nat, cuts: seq<nat>, buffer: string)
    requires m < |lines| && LineEndsCut(lines, |lines|, cuts) && From(cuts, |cuts|) <= |Concat(lines)|
    requires Buffered(lines + [""], cuts, buffer)
    ensures var now := Recorded(cuts, Concat(lines), buffer);
            End(lines, m) in now <==>
              if End(lines, m) == |Concat(lines)| then Trim(Pending(lines, m, now)) != "" else Complete(lines, m, now)
  {
    hide Trim, Continues, Neutral, Concat, LastBefore, Since;
    var e, text := End(lines, m), Concat(lines);
    assert lines[..|lines|] == lines;
    EndsGrow(lines, m, |lines|);
    LastBeforeLater(cuts, |text|, e);
    if e == |text| && e !in cuts {
      SameEnd(lines, m, |lines| - 1, cuts);
      UncutLast(cuts, e);
      var since := Since(lines, From(cuts, |cuts|));
      SinceNewLine(lines, From(cuts, |cuts|));
      NewlineDecides(since);
      ResidueDecides(since + "\n", buffer);
    }
  }

  // ----- the loop's state -----

  /** What holds after `text` has been read: nothing is lost, and the cuts are where they must be. */
  ghost predicate Reading(text: string, statements: seq<string>, cuts: seq<nat>, buffer: string) {
    && Dividing(text, statements, cuts, buffer)
    && SemicolonsCut(text, cuts)
    && Squash(Concat(statements)) + Squash(buffer) == Squash(text)
  }

  lemma ReadingStarts()
    ensures Reading("", [], [], "") && Trimmed([]) && LexerAfter("") == Lexer(0, 0, false, '"', false) &&
            Concat([]) == ""
  {
  }

  lemma ReadingCharacter(text: string, statements: seq<string>, cuts: seq<nat>, buffer: string, c: char)
    requires Reading(text, statements, cuts, buffer) && !(c == ';' && Neutral(text))
    ensures Reading(text + [c], statements, cuts, buffer + [c])
  {
    hide Dividing, SemicolonsCut, Neutral, Squash, Concat;
    ReadCharacter(text, statements, cuts, buffer, c);
    ReadSemicolons(text, cuts, c);
    CharacterKept(text, statements, buffer, c);
  }

  lemma CharacterKept(text: string, statements: seq<string>, buffer: string, c: char)
    requires Squash(Concat(statements)) + Squash(buffer) == Squash(text)
    ensures Squash(Concat(statements)) + Squash(buffer + [c]) == Squash(text + [c])
  {
    hide Squash, Concat;
    SquashConcat(text, [c]);
    SquashConcat(buffer, [c]);
    var kept, one := Squash(Concat(statements)), Squash([c]);
    assert kept + (Squash(buffer) + one) == (kept + Squash(buffer)) + one;
  }

  /** Flushing where the text read so far is neutral. */
  lemma ReadingFlush(text: string, statements: seq<string>, cuts: seq<nat>, buffer: string)
    requires Dividing(text, statements, cuts, buffer) && Neutral(text)
    requires Squash(Concat(statements)) + Squash(buffer) == Squash(text)
    requires SemicolonsCut(text, Recorded(cuts, text, buffer))
    ensures Reading(text, Flushed(statements, buffer), Recorded(cuts, text, buffer), "")
  {
    hide Dividing, SemicolonsCut, Neutral, Squash, Concat, Recorded, Flushed;
    FlushNeutral(text, statements, cuts, buffer);
    FlushKeeps(statements, buffer);
    NothingLeft();
  }

  lemma FlushKeeps(statements: seq<string>, buffer: string)
    ensures Squash(Concat(Flushed(statements, buffer))) == Squash(Concat(statements)) + Squash(buffer)
  {
    hide Trim;
    SquashTrim(buffer);
    NothingLeft();
    var flushed := Flushed(statements, buffer);
    if Trim(buffer) != "" {
      assert flushed[..|flushed| - 1] == statements;
      SquashConcat(Concat(statements), Trim(buffer));
    }
  }

  lemma ReadingSemicolon(text: string, statements: seq<string>, cuts: seq<nat>, buffer: string)
    requires Reading(text, statements, cuts, buffer) && Neutral(text)
    ensures Reading(text + ";", Flushed(statements, buffer + ";"), Recorded(cuts, text + ";", buffer + ";"), "")
  {
    hide Dividing, SemicolonsCut, Neutral, Squash, Concat, Trim;
    ReadCharacter(text, statements, cuts, buffer, ';');
    CharacterKept(text, statements, buffer, ';');
    SemicolonFlushes(buffer);
    CutSemicolons(text, cuts);
    SemicolonNeutral(text);
    ReadingFlush(text + ";", statements, cuts, buffer + ";");
  }

  lemma ReadingLineEnd(text: string, statements: seq<string>, cuts: seq<nat>, buffer: string)
    requires Reading(text, statements, cuts, buffer)
    ensures Reading(text, statements, cuts, buffer + "\n")
    ensures Neutral(text) ==> Reading(text, Flushed(statements, buffer), Recorded(cuts, text, buffer), "")
  {
    hide SemicolonsCut, Neutral, Squash, Concat, Recorded, Flushed, Pieces;
    NewlineVanishes(buffer);
    if Neutral(text) {
      RecordedSemicolons(text, cuts, buffer);
      ReadingFlush(text, statements, cuts, buffer);
    }
  }

  lemma ReadingEnds(text: string, statements: seq<string>, cuts: seq<nat>, buffer: string)
    requires Reading(text, statements, cuts, buffer)
    ensures Divides(text, Flushed(statements, buffer), Recorded(cuts, text, buffer))
    ensures Squash(Concat(Flushed(statements, buffer))) == Squash(text)
  {
    hide SemicolonsCut, Dividing, Neutral, Squash, Concat, Recorded, Flushed;
    FlushPieces(text, statements, cuts, buffer);
    FlushNeutral(text, statements, cuts, buffer);
    RecordedSemicolons(text, cuts, buffer);
    FlushKeeps(statements, buffer);
  }

  /**
   * No character but white space is lost, added or moved. A statement ends at every semicolon
   * outside brackets and quotes, at every line end where the pending text is complete, at the end
   * of the text, and nowhere else.
   */
  method SplitLocalStatements(lines: seq<string>) returns (statements: seq<string>, ghost cuts: seq<nat>)
    ensures Squash(Concat(statements)) == Squash(Concat(lines))
    ensures Trimmed(statements)
    ensures Divides(Concat(lines), statements, cuts)
    ensures CutsPlaced(lines, |lines|, Concat(lines), cuts) && LinesCut(lines, cuts)
  {
    hide Concat, Squash, IsSpace, Trimmed, Continues, Reading, Divides, Recorded, Flushed, Explained, Buffered, From;
    hide Neutral, LinesCut, CutsPlaced, Trim;
    statements, cuts := [], [];
    var buffer := "";
    var parenthesisDepth: nat, bracketDepth: nat := 0, 0;
    var inQuote, quote, escaped := false, '"', false;
    ghost var text := "";
    ReadingStarts();
    ExplainStarts(lines);
    for l := 0 to |lines|
      invariant Trimmed(statements) && Reading(text, statements, cuts, buffer)
      invariant Explained(lines, l, text, cuts) && Buffered(lines[..l] + [""], cuts, buffer)
      invariant l == 0 ==> buffer == ""
      invariant text == Concat(lines[..l]) &&
                LexerAfter(text) == Lexer(parenthesisDepth, bracketDepth, inQuote, quote, escaped)
    {
      var line := lines[l];
      for index := 0 to |line|
        invariant Trimmed(statements) && Reading(text, statements, cuts, buffer)
        invariant Explained(lines, l, text, cuts) && Buffered(lines[..l] + [line[..index]], cuts, buffer)
        invariant text == Concat(lines[..l]) + line[..index]
        invariant LexerAfter(text) == Lexer(parenthesisDepth, bracketDepth, inQuote, quote, escaped)
      {
        var character := line[index];
        ghost var before, read := text, buffer;
        text := before + [character];
        assert text == Concat(lines[..l]) + line[..index + 1] && text[..|text| - 1] == before;
        buffer := buffer + [character];
        TurnRead(lines, l, index, before, statements, cuts, read);
        NeutralIs(before, parenthesisDepth, bracketDepth, inQuote, quote, escaped);
        if inQuote {
          if escaped {
            escaped := false;
          } else if character == '\\' {
            escaped := true;
          } else if character == quote {
            inQuote := false;
          }
        } else if character == '\'' || character == '"' || character == '`' {
          inQuote, quote := true, character;
        } else if character == '(' {
          parenthesisDepth := parenthesisDepth + 1;
        } else if character == ')' {
          parenthesisDepth := if parenthesisDepth > 0 then parenthesisDepth - 1 else 0;
        } else if character == '[' {
          bracketDepth := bracketDepth + 1;
        } else if character == ']' {
          bracketDepth := if bracketDepth > 0 then bracketDepth - 1 else 0;
        } else if character == ';' && parenthesisDepth == 0 && bracketDepth == 0 {
          cuts := Recorded(cuts, text, buffer);
          statements := Flush(statements, buffer);
          buffer := "";
        }
      }
      LineRead(lines, l);
      var continuation := Continues(buffer);
      NeutralIs(text, parenthesisDepth, bracketDepth, inQuote, quote, escaped);
      LineTurn(lines, l, statements, cuts, buffer);
      if parenthesisDepth == 0 && bracketDepth == 0 && !inQuote && !continuation {
        cuts := Recorded(cuts, text, buffer);
        statements := Flush(statements, buffer);
        buffer := "";
      } else {
        buffer := buffer + "\n";
      }
    }
    assert lines[..|lines|] == lines;
    ReadingEnds(text, statements, cuts, buffer);
    LastWithin(text, statements, cuts, buffer);
    ExplainEnd(lines, cuts, buffer);
    cuts := Recorded(cuts, text, buffer);
    statements := Flush(statements, buffer);
  }

  lemma ExplainStarts(lines: seq<string>)
    ensures Explained(lines, 0, "", []) && Buffered(lines[..0] + [""], [], "")
  {
  }

  lemma NeutralIs(text: string, parentheses: nat, brackets: nat, inQuote: bool, quote: char, escaped: bool)
    requires LexerAfter(text) == Lexer(parentheses, brackets, inQuote, quote, escaped)
    ensures Neutral(text) <==> parentheses == 0 && brackets == 0 && !inQuote
  {
  }

  lemma LastWithin(text: string, statements: seq<string>, cuts: seq<nat>, buffer: string)
    requires Reading(text, statements, cuts, buffer)
    ensures From(cuts, |cuts|) <= |text|
  {
  }

  /** One character: what is known with it in the buffer, or flushed by it. */
  lemma TurnRead(lines: seq<string>, l: nat, index: nat, before: string, statements: seq<string>, cuts: seq<nat>,
      read: string)
    requires l < |lines| && index < |lines[l]| && before == Concat(lines[..l]) + lines[l][..index]
    requires Reading(before, statements, cuts, read) && Explained(lines, l, before, cuts)
    requires Buffered(lines[..l] + [lines[l][..index]], cuts, read)
    ensures var c := lines[l][index];
            var text, buffer, now := before + [c], read + [c], lines[..l] + [lines[l][..index + 1]];
            if c == ';' && Neutral(before) then
              && Reading(text, Flushed(statements, buffer), Recorded(cuts, text, buffer), "")
              && Explained(lines, l, text, Recorded(cuts, text, buffer))
              && Buffered(now, Recorded(cuts, text, buffer), "")
            else
              Reading(text, statements, cuts, buffer) && Explained(lines, l, text, cuts) && Buffered(now, cuts, buffer)
  {
    hide Reading, Explained, Buffered, Neutral, Concat, From, Recorded, Flushed;
    var c, front, x := lines[l][index], lines[..l], lines[l][..index];
    assert lines[l][..index + 1] == x + [c];
    LastWithin(before, statements, cuts, read);
    BufferedCharacter(front, x, cuts, read, c);
    if c == ';' && Neutral(before) {
      ReadingSemicolon(before, statements, cuts, read);
      SemicolonRecorded(cuts, before, read);
      ExplainSemicolon(lines, l, before, cuts);
      ConcatLast(front, x + [c]);
      assert before + ";" == Concat(front) + (x + [c]);
      BufferedAfterCut(front + [x + [c]], cuts, read + ";");
    } else {
      ReadingCharacter(before, statements, cuts, read, c);
      ExplainCharacter(lines, l, before, cuts, c);
    }
  }

  lemma SemicolonRecorded(cuts: seq<nat>, before: string, read: string)
    ensures Recorded(cuts, before + ";", read + ";") == cuts + [|before| + 1]
  {
    hide Trim;
    SemicolonFlushes(read);
  }

  lemma ConcatLast(front: seq<string>, line: string)
    ensures Concat(front + [line]) == Concat(front) + line
  {
    assert (front + [line])[..|front|] == front;
  }

  /** One line end: what is known after the flush, or with the line feed in the buffer. */
  lemma LineTurn(lines: seq<string>, l: nat, statements: seq<string>, cuts: seq<nat>, buffer: string)
    requires l < |lines|
    requires var text := Concat(lines[..l + 1]);
             Reading(text, statements, cuts, buffer) && Explained(lines, l, text, cuts)
    requires Buffered(lines[..l] + [lines[l][..|lines[l]|]], cuts, buffer)
    ensures var text, read := Concat(lines[..l + 1]), lines[..l + 1];
            if Neutral(text) && !Continues(buffer) then
              && Reading(text, Flushed(statements, buffer), Recorded(cuts, text, buffer), "")
              && Explained(lines, l + 1, text, Recorded(cuts, text, buffer))
              && Buffered(read + [""], Recorded(cuts, text, buffer), "")
            else
              && Reading(text, statements, cuts, buffer + "\n")
              && Explained(lines, l + 1, text, cuts)
              && Buffered(read + [""], cuts, buffer + "\n")
  {
    hide Reading, Explained, Buffered, Neutral, Concat, From, Recorded, Flushed, Continues;
    var text, read := Concat(lines[..l + 1]), lines[..l + 1];
    assert lines[l][..|lines[l]|] == lines[l];
    assert lines[..l] + [lines[l]] == read;
    assert End(lines, l) == |text|;
    LastWithin(text, statements, cuts, buffer);
    ReadingLineEnd(text, statements, cuts, buffer);
    if Neutral(text) && !Continues(buffer) {
      var now := Recorded(cuts, text, buffer);
      ExplainLineEnd(lines, l, cuts, buffer, now);
      BufferedAfterCut(read, cuts, buffer);
      LastWithin(text, Flushed(statements, buffer), now, "");
      BufferedNewLine(read, now, "", true);
    } else {
      ExplainLineEnd(lines, l, cuts, buffer, cuts);
      BufferedNewLine(read, cuts, buffer, false);
    }
  }

  lemma LineRead(lines: seq<string>, l: nat)
    requires l < |lines|
    ensures Concat(lines[..l + 1]) == Concat(lines[..l]) + lines[l][..|lines[l]|]
  {
    assert lines[..l + 1][..l] == lines[..l];
  }

  lemma NewlineVanishes(buffer: string)
    ensures Squash(buffer + "\n") == Squash(buffer)
  {
    SquashConcat(buffer, "\n");
    assert "\n"[..0] == "";
  }
}
