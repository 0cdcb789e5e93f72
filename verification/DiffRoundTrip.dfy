/** Patches written the way git writes them, and what the parser reads back. */
module DiffRoundTrip {
  import opened Wrappers
  import opened ScalarTokenizer
  import opened DiffLines
  import opened DiffParse

  datatype TextLine = TextLine(kind: Kind, text: string)

  datatype TextHunk = TextHunk(oldStart: nat, newStart: nat, lines: seq<TextLine>)

  datatype Form = Changed | Created | Deleted

  datatype Edit = Edit(file: string, form: Form, hunks: seq<TextHunk>)

  // ------------------------------------------------------------------------------ rendering

  function Digits(n: nat): string {
    if n < 10 then [('0' as int + n) as char] else Digits(n / 10) + [('0' as int + n % 10) as char]
  }

  function Sign(kind: Kind): string {
    match kind
    case Context => " "
    case Added => "+"
    case Removed => "-"
  }

  function Count(lines: seq<TextLine>, not: Kind): nat {
    if lines == [] then 0 else (if lines[0].kind == not then 0 else 1) + Count(lines[1..], not)
  }

  function HunkText(h: TextHunk): string {
    "@@ -" + Digits(h.oldStart) + "," + Digits(Count(h.lines, Added))
    + " +" + Digits(h.newStart) + "," + Digits(Count(h.lines, Removed)) + " @@"
  }

  function LineTexts(lines: seq<TextLine>): seq<string> {
    if lines == [] then []
    else LineTexts(lines[..|lines| - 1]) + [Sign(lines[|lines| - 1].kind) + lines[|lines| - 1].text]
  }

  function HunkTexts(hunks: seq<TextHunk>): seq<string> {
    if hunks == [] then []
    else
      var h := hunks[|hunks| - 1];
      HunkTexts(hunks[..|hunks| - 1]) + ([HunkText(h)] + LineTexts(h.lines))
  }

  function Headers(e: Edit): seq<string> {
    ["diff --git a/" + e.file + " b/" + e.file,
     if e.form == Created then "--- /dev/null" else "--- a/" + e.file,
     if e.form == Deleted then "+++ /dev/null" else "+++ b/" + e.file]
  }

  function Rendered(edits: seq<Edit>): seq<string> {
    if edits == [] then []
    else
      var e := edits[|edits| - 1];
      Rendered(edits[..|edits| - 1]) + (Headers(e) + HunkTexts(e.hunks))
  }

  // ------------------------------------------------------------------ what can be read back

  /** A path git leaves unquoted, and that is not taken for a missing file. */
  predicate PlainPath(file: string) {
    && file != "" && file != "/dev/null" && '\\' !in file
    && forall i :: 0 <= i < |file| ==> !IsSpace(file[i])
  }

  /** No path header, once its sign is put in front; nor does it hold a line break. */
  predicate PlainLine(line: TextLine, q: Quoting) {
    var raw := Sign(line.kind) + line.text;
    && Unbroken(line.text)
    && !((StartsWith(raw, "+++") || StartsWith(raw, "---")) && PathHeader(raw, q).Some?)
  }

  predicate PlainHunk(h: TextHunk, q: Quoting) {
    forall i :: 0 <= i < |h.lines| ==> PlainLine(h.lines[i], q)
  }

  predicate PlainEdit(e: Edit, q: Quoting) {
    PlainPath(e.file) && forall i :: 0 <= i < |e.hunks| ==> PlainHunk(e.hunks[i], q)
  }

  predicate AllPlain(edits: seq<Edit>, q: Quoting) {
    forall i :: 0 <= i < |edits| ==> PlainEdit(edits[i], q)
  }

  // --------------------------------------------------------------- each line is recognised

  lemma {:induction false} TokenOf(x: string, rest: string)
    requires forall i :: 0 <= i < |x| ==> !IsSpace(x[i])
    requires rest == "" || IsSpace(rest[0])
    ensures TokenLength(x + rest) == |x|
  {
    if x == "" {
      assert x + rest == rest;
    } else {
      assert (x + rest)[1..] == x[1..] + rest;
      TokenOf(x[1..], rest);
    }
  }

  lemma {:induction false} SlashedSame(s: string)
    requires '\\' !in s
    ensures Slashed(s) == s
  {
    if s != "" {
      SlashedSame(s[1..]);
      assert [s[0]] + s[1..] == s;
    }
  }

  /** A plain path with git's prefix loses the prefix and nothing else. */
  lemma Stripped(prefix: string, file: string, q: Quoting)
    requires PlainPath(file) && (prefix == "a/" || prefix == "b/")
    ensures StripPrefix(Decoded(prefix + file, q)) == file
  {
    SlashedSame(file);
    assert (prefix + file)[2..] == file;
    assert '\\' !in prefix + file;
    assert prefix[0] == (prefix + file)[0] && prefix[1] == (prefix + file)[1];
    assert StartsWith(prefix + file, prefix);
  }

  lemma DiffTokens(file: string)
    requires PlainPath(file)
    ensures var a, b := "a/" + file, "b/" + file;
            && TokenLength(a + (" " + b)) == |a| && TokenLength(b) == |b|
            && (a + (" " + b))[|a|] == ' ' && (a + (" " + b))[|a| + 1..] == b
  {
    hide TokenLength;
    var a, b := "a/" + file, "b/" + file;
    TokenOf(a, " " + b);
    assert b + "" == b;
    TokenOf(b, "");
  }

  lemma DiffHeaderRead(file: string, q: Quoting)
    requires PlainPath(file)
    ensures Classify("diff --git a/" + file + " b/" + file, q) == DiffHeader(file)
  {
    hide TokenLength, StripPrefix, Decoded, PlainPath, ModeLine, GitlinkIndex, RenameLine, PathHeader, BinaryLine,
        ReadHunk;
    var s := "diff --git a/" + file + " b/" + file;
    var a, b := "a/" + file, "b/" + file;
    var rest := a + (" " + b);
    assert s == DIFF + rest;
    assert s[|DIFF|..] == rest && StartsWith(s, DIFF);
    DiffTokens(file);
    PathNotEmpty(file);
    Prefixed("a/", file + (" " + b));
    assert "a/" + (file + (" " + b)) == rest;
    Prefixed("b/", file);
    Stripped("b/", file, q);
  }

  lemma Prefixed(prefix: string, rest: string)
    ensures StartsWith(prefix + rest, prefix)
  {
  }

  lemma PathNotEmpty(file: string)
    requires PlainPath(file)
    ensures file != ""
  {
  }

  lemma PathRead(sign: string, prefix: string, file: string, q: Quoting)
    requires PlainPath(file) && |sign| == 3 && (prefix == "a/" || prefix == "b/")
    ensures PathHeader(sign + " " + prefix + file, q) == Some(Some(file))
  {
    var s := sign + " " + prefix + file;
    var path := prefix + file;
    assert s[3..] == " " + path;
    assert (" " + path)[1..] == path && path[0] == prefix[0] && path[1] == '/';
    assert !IsSpace(path[0]) && SpaceLength(path) == 0;
    assert SpaceLength(" " + path) == 1 && s[4..] == path;
    assert path + "" == path;
    TokenOf(path, "");
    assert StartsWith(path, prefix) && path[..|path|] == path;
    assert "/dev/null"[0] == '/';
    Stripped(prefix, file, q);
  }

  /** A line with another first character is none of the forms that begin with a letter. */
  lemma NotMetadata(s: string, q: Quoting)
    requires s == "" || (s[0] != 'd' && s[0] != 'o' && s[0] != 'n' && s[0] != 'i' && s[0] != 'I'
                         && s[0] != 'r' && s[0] != 'c' && s[0] != 'G' && s[0] != 'B')
    ensures DiffFile(s, q) == None && !ModeLine(s) && !GitlinkIndex(s) && !RenameLine(s) && !BinaryLine(s)
    ensures s != "new file mode 160000" && s != "deleted file mode 160000"
  {
    FirstDiffers(s, DIFF);
    FirstDiffers(s, "old mode ");
    FirstDiffers(s, "new mode ");
    FirstDiffers(s, "rename from ");
    FirstDiffers(s, "rename to ");
    FirstDiffers(s, "copy from ");
    FirstDiffers(s, "copy to ");
    FirstDiffers(s, "Binary files ");
    if |s| >= 6 { assert Lower(s[..6])[0] == if 'A' <= s[0] <= 'Z' then (s[0] as int + 32) as char else s[0]; }
  }

  lemma FirstDiffers(s: string, word: string)
    requires word != "" && (s == "" || s[0] != word[0])
    ensures !StartsWith(s, word)
  {
  }

  lemma MinusHeaderRead(file: string, q: Quoting)
    requires PlainPath(file)
    ensures Classify("--- a/" + file, q) == MinusHeader(Some(file))
  {
    hide PathHeader, DiffFile, ModeLine, GitlinkIndex, RenameLine, BinaryLine, ReadHunk, PlainPath;
    var s := "--- a/" + file;
    assert s == "---" + " " + "a/" + file;
    NotMetadata(s, q);
    PathRead("---", "a/", file, q);
    FirstDiffers(s, "+++");
    Prefixed("---", " " + "a/" + file);
    assert "---" + (" " + "a/" + file) == s;
  }

  lemma PlusHeaderRead(file: string, q: Quoting)
    requires PlainPath(file)
    ensures Classify("+++ b/" + file, q) == PlusHeader(Some(file))
  {
    hide PathHeader, DiffFile, ModeLine, GitlinkIndex, RenameLine, BinaryLine, ReadHunk, PlainPath;
    var s := "+++ b/" + file;
    assert s == "+++" + " " + "b/" + file;
    NotMetadata(s, q);
    PathRead("+++", "b/", file, q);
    Prefixed("+++", " " + "b/" + file);
    assert "+++" + (" " + "b/" + file) == s;
  }

  lemma NoFile(sign: string, q: Quoting)
    requires |sign| == 3
    ensures PathHeader(sign + " /dev/null", q) == Some(None)
  {
    var s := sign + " /dev/null";
    assert s[3..] == " /dev/null" && s[4..] == "/dev/null";
    assert (" /dev/null")[1..] == "/dev/null";
    assert SpaceLength("/dev/null") == 0;
    assert SpaceLength(" /dev/null") == 1;
  }

  lemma NoFileRead(q: Quoting)
    ensures Classify("--- /dev/null", q) == MinusHeader(None)
    ensures Classify("+++ /dev/null", q) == PlusHeader(None)
  {
    hide PathHeader, DiffFile, ModeLine, GitlinkIndex, RenameLine, BinaryLine, ReadHunk;
    NoFile("---", q);
    NoFile("+++", q);
    assert "---" + " /dev/null" == "--- /dev/null" && "+++" + " /dev/null" == "+++ /dev/null";
    NotMetadata("--- /dev/null", q);
    NotMetadata("+++ /dev/null", q);
    Prefixed("---", " /dev/null");
    Prefixed("+++", " /dev/null");
    FirstDiffers("--- /dev/null", "+++");
  }

  lemma BodyRead(line: TextLine, q: Quoting)
    requires PlainLine(line, q)
    ensures Classify(Sign(line.kind) + line.text, q) == Body(Sign(line.kind) + line.text)
  {
    hide PathHeader, DiffFile, ModeLine, GitlinkIndex, RenameLine, BinaryLine;
    var s := Sign(line.kind) + line.text;
    NotMetadata(s, q);
    FirstDiffers(s, "@@ -");
  }

  // ----------------------------------------------------------------------- numbers and hunks

  lemma {:induction false} DigitsAreNumber(n: nat)
    ensures Digits(n) != "" && (forall i :: 0 <= i < |Digits(n)| ==> IsDigit(Digits(n)[i]))
    ensures Number(Digits(n)) == n
  {
    var d := Digits(n);
    if n < 10 {
      assert d[..0] == "";
    } else {
      DigitsAreNumber(n / 10);
      assert d[..|d| - 1] == Digits(n / 10);
    }
  }

  lemma {:induction false} DigitsRun(x: string, rest: string)
    requires forall i :: 0 <= i < |x| ==> IsDigit(x[i])
    requires rest == "" || !IsDigit(rest[0])
    ensures DigitsLength(x + rest) == |x|
  {
    if x == "" {
      assert x + rest == rest;
    } else {
      assert (x + rest)[1..] == x[1..] + rest;
      DigitsRun(x[1..], rest);
    }
  }

  lemma CountRead(count: nat, rest: string)
    requires rest != "" && !IsDigit(rest[0])
    ensures CountLength("," + Digits(count) + rest) == 1 + |Digits(count)|
  {
    hide DigitsLength, Digits, Number;
    DigitsAreNumber(count);
    assert ("," + Digits(count) + rest)[1..] == Digits(count) + rest;
    DigitsRun(Digits(count), rest);
  }

  function Counted(n: nat, count: nat, rest: string): string { Digits(n) + ("," + Digits(count) + rest) }

  /** A number with its count, read up to what follows. */
  lemma NumberRead(n: nat, count: nat, rest: string)
    requires rest != "" && !IsDigit(rest[0])
    ensures DigitsLength(Counted(n, count, rest)) > 0 && Leading(Counted(n, count, rest)) == n
    ensures PastNumber(Counted(n, count, rest)) == rest
  {
    hide DigitsLength, Digits, Number, CountLength;
    DigitsAreNumber(n);
    var tail := "," + Digits(count) + rest;
    assert tail[0] == ',';
    DigitsRun(Digits(n), tail);
    CountRead(count, rest);
    assert tail[1 + |Digits(count)|..] == rest;
  }

  lemma HunkTextShape(h: TextHunk)
    ensures var after := Counted(h.newStart, Count(h.lines, Removed), " @@");
            HunkText(h) == "@@ -" + Counted(h.oldStart, Count(h.lines, Added), " +" + after)
  {
    hide Digits, Count;
  }

  lemma HunkRead(h: TextHunk, q: Quoting)
    ensures Classify(HunkText(h), q) == HunkHeader(h.oldStart, h.newStart)
  {
    hide DigitsLength, PastNumber, Leading, Counted, HunkText, PathHeader, DiffFile, ModeLine, GitlinkIndex, RenameLine,
        BinaryLine;
    var after := Counted(h.newStart, Count(h.lines, Removed), " @@");
    var before := Counted(h.oldStart, Count(h.lines, Added), " +" + after);
    var s := HunkText(h);
    HunkTextShape(h);
    assert s[4..] == before;
    Prefixed("@@ -", before);
    Prefixed(" +", after);
    NumberRead(h.oldStart, Count(h.lines, Added), " +" + after);
    NumberRead(h.newStart, Count(h.lines, Removed), " @@");
    assert (" +" + after)[2..] == after;
    NotMetadata(s, q);
    FirstDiffers(s, "+++");
    FirstDiffers(s, "---");
  }

  // --------------------------------------------------------------------------- reading back

  /** The texts of one kind, in order. */
  function Texts(lines: seq<TextLine>, kind: Kind): seq<string> {
    if lines == [] then []
    else
      var last := lines[|lines| - 1];
      Texts(lines[..|lines| - 1], kind) + (if last.kind == kind then [last.text] else [])
  }

  function AllTexts(hunks: seq<TextHunk>, kind: Kind): seq<string> {
    if hunks == [] then []
    else AllTexts(hunks[..|hunks| - 1], kind) + Texts(hunks[|hunks| - 1].lines, kind)
  }

  /** A hunk without its indices. */
  function Plainly(h: Hunk): TextHunk {
    TextHunk(h.oldStart, h.newStart,
        seq(|h.lines|, i requires 0 <= i < |h.lines| => TextLine(h.lines[i].kind, h.lines[i].text)))
  }

  /** The parsed patch says what the edit says, and each changed line points at its text. */
  predicate ReadBack(p: FilePatch, e: Edit) {
    && p.file == e.file && !p.binary && p.reasons == []
    && |p.hunks| == |e.hunks| && (forall i :: 0 <= i < |p.hunks| ==> Plainly(p.hunks[i]) == e.hunks[i])
    && p.addedLines == AllTexts(e.hunks, Added) && p.removedLines == AllTexts(e.hunks, Removed)
  }

  lemma {:induction false} RunAppend(c: Cursor, a: seq<string>, b: seq<string>, q: Quoting)
    requires WellPlaced(c)
    ensures Run(c, a + b, q) == Run(Run(c, a, q), b, q)
  {
    hide Step, Classify;
    if b == [] {
      assert a + b == a;
    } else {
      assert (a + b)[..|a + b| - 1] == a + b[..|b| - 1];
      RunAppend(c, a, b[..|b| - 1], q);
    }
  }

  lemma RunSingle(c: Cursor, line: string, q: Quoting)
    requires WellPlaced(c)
    ensures Run(c, [line], q) == Step(c, Classify(line, q))
  {
    assert [line][..0] == [];
  }

  /** The last file of the cursor, whose last hunk is the one of these lines so far. */
  predicate InHunk(c: Cursor, before: seq<FilePatch>, p: FilePatch, o: nat, n: nat, lines: seq<TextLine>) {
    && c.current && c.inHunk && |c.files| == |before| + 1 && c.files[..|before|] == before
    && var now := c.files[|before|];
       && now.file == p.file && now.binary == p.binary && now.reasons == p.reasons
       && |now.hunks| == |p.hunks| + 1 && now.hunks[..|p.hunks|] == p.hunks
       && Plainly(now.hunks[|p.hunks|]) == TextHunk(o, n, lines)
       && now.addedLines == p.addedLines + Texts(lines, Added)
       && now.removedLines == p.removedLines + Texts(lines, Removed)
  }

  function Indexing(p: FilePatch, line: TextLine): HunkLine {
    HunkLine(line.kind, line.text,
             match line.kind case Added => |p.addedLines| case Removed => |p.removedLines| case Context => 0)
  }

  function Only(kind: Kind, line: TextLine): seq<string> { if line.kind == kind then [line.text] else [] }

  lemma ContentOf(p: FilePatch, line: TextLine)
    requires p.hunks != []
    ensures var n := |p.hunks| - 1;
            Content(p, true, Sign(line.kind) + line.text) ==
            p.(hunks := p.hunks[n := p.hunks[n].(lines := p.hunks[n].lines + [Indexing(p, line)])],
               addedLines := p.addedLines + Only(Added, line), removedLines := p.removedLines + Only(Removed, line))
  {
    var raw := Sign(line.kind) + line.text;
    assert raw[1..] == line.text && raw[0] == Sign(line.kind)[0];
    assert p.addedLines + [] == p.addedLines && p.removedLines + [] == p.removedLines;
    match line.kind {
      case Added => assert StartsWith(raw, "+");
      case Removed => assert StartsWith(raw, "-") && !StartsWith(raw, "+");
      case Context => assert StartsWith(raw, " ") && !StartsWith(raw, "+") && !StartsWith(raw, "-");
    }
  }

  lemma PlainlyExtended(h: Hunk, line: HunkLine)
    ensures Plainly(h.(lines := h.lines + [line])) ==
            Plainly(h).(lines := Plainly(h).lines + [TextLine(line.kind, line.text)])
  {
  }

  lemma BodyStep(c: Cursor, before: seq<FilePatch>, p: FilePatch, o: nat, n: nat, lines: seq<TextLine>, line: TextLine)
    requires WellPlaced(c) && InHunk(c, before, p, o, n, lines)
    ensures InHunk(Step(c, Body(Sign(line.kind) + line.text)), before, p, o, n, lines + [line])
  {
    hide Texts, Plainly, Content;
    var now, k := c.files[|before|], |p.hunks|;
    TextsExtended(lines, line);
    ContentOf(now, line);
    PlainlyExtended(now.hunks[k], Indexing(now, line));
    var next := Step(c, Body(Sign(line.kind) + line.text)).files[|before|];
    assert next.addedLines == p.addedLines + Texts(lines + [line], Added);
    assert next.removedLines == p.removedLines + Texts(lines + [line], Removed);
    assert Plainly(next.hunks[k]) == TextHunk(o, n, lines + [line]);
    assert next.hunks[..k] == p.hunks;
  }

  lemma TextsExtended(lines: seq<TextLine>, line: TextLine)
    ensures forall kind ::
            Texts(lines + [line], kind) == Texts(lines, kind) + (if line.kind == kind then [line.text] else [])
  {
    assert (lines + [line])[..|lines|] == lines;
  }

  lemma {:induction false} LinesRun(c: Cursor, before: seq<FilePatch>, p: FilePatch, o: nat, n: nat,
      lines: seq<TextLine>, q: Quoting)
    requires WellPlaced(c) && InHunk(c, before, p, o, n, [])
    requires forall i :: 0 <= i < |lines| ==> PlainLine(lines[i], q)
    ensures InHunk(Run(c, LineTexts(lines), q), before, p, o, n, lines)
  {
    hide Step, Classify, InHunk, PlainLine;
    if lines != [] {
      var init, last := lines[..|lines| - 1], lines[|lines| - 1];
      LinesRun(c, before, p, o, n, init, q);
      BodyRead(last, q);
      BodyStep(Run(c, LineTexts(init), q), before, p, o, n, init, last);
      RunAppend(c, LineTexts(init), [Sign(last.kind) + last.text], q);
      RunSingle(Run(c, LineTexts(init), q), Sign(last.kind) + last.text, q);
      assert init + [last] == lines;
    }
  }

  /** The last file of the cursor, holding these hunks so far. */
  predicate InFile(c: Cursor, before: seq<FilePatch>, file: string, hunks: seq<TextHunk>) {
    && c.current && |c.files| == |before| + 1 && c.files[..|before|] == before
    && ReadBack(c.files[|before|], Edit(file, Changed, hunks))
  }

  lemma HunkOpened(c: Cursor, before: seq<FilePatch>, file: string, hunks: seq<TextHunk>, o: nat, n: nat)
    requires WellPlaced(c) && InFile(c, before, file, hunks)
    ensures InHunk(Step(c, HunkHeader(o, n)), before, c.files[|before|], o, n, [])
  {
    hide ReadBack;
    var p := c.files[|before|];
    assert p.addedLines + [] == p.addedLines && p.removedLines + [] == p.removedLines;
  }

  lemma HunkClosed(c: Cursor, before: seq<FilePatch>, p: FilePatch, file: string, hunks: seq<TextHunk>, h: TextHunk)
    requires ReadBack(p, Edit(file, Changed, hunks)) && InHunk(c, before, p, h.oldStart, h.newStart, h.lines)
    ensures InFile(c, before, file, hunks + [h])
  {
    hide Texts, Plainly;
    assert (hunks + [h])[..|hunks|] == hunks;
    var now, all := c.files[|before|], hunks + [h];
    assert TextHunk(h.oldStart, h.newStart, h.lines) == h;
    forall i | 0 <= i < |now.hunks| ensures Plainly(now.hunks[i]) == all[i] {
      if i < |hunks| { assert now.hunks[i] == now.hunks[..|hunks|][i]; }
    }
  }

  lemma {:induction false} HunksRun(c: Cursor, before: seq<FilePatch>, file: string, hunks: seq<TextHunk>, q: Quoting)
    requires WellPlaced(c) && InFile(c, before, file, [])
    requires forall i :: 0 <= i < |hunks| ==> PlainHunk(hunks[i], q)
    ensures InFile(Run(c, HunkTexts(hunks), q), before, file, hunks)
  {
    hide Step, Classify, InFile, InHunk, PlainLine, HunkText;
    if hunks != [] {
      var init, h := hunks[..|hunks| - 1], hunks[|hunks| - 1];
      HunksRun(c, before, file, init, q);
      var c1 := Run(c, HunkTexts(init), q);
      RunAppend(c, HunkTexts(init), [HunkText(h)] + LineTexts(h.lines), q);
      OneHunkRun(c1, before, file, init, h, q);
      assert init + [h] == hunks;
    }
  }

  lemma OneHunkRun(c: Cursor, before: seq<FilePatch>, file: string, init: seq<TextHunk>, h: TextHunk, q: Quoting)
    requires WellPlaced(c) && InFile(c, before, file, init) && PlainHunk(h, q)
    ensures InFile(Run(c, [HunkText(h)] + LineTexts(h.lines), q), before, file, init + [h])
  {
    hide Step, Classify, InFile, InHunk, PlainLine, HunkText;
    RunAppend(c, [HunkText(h)], LineTexts(h.lines), q);
    RunSingle(c, HunkText(h), q);
    HunkRead(h, q);
    var c2 := Step(c, HunkHeader(h.oldStart, h.newStart));
    InFileFacts(c, before, file, init);
    HunkOpened(c, before, file, init, h.oldStart, h.newStart);
    LinesRun(c2, before, c.files[|before|], h.oldStart, h.newStart, h.lines, q);
    HunkClosed(Run(c2, LineTexts(h.lines), q), before, c.files[|before|], file, init, h);
  }

  lemma InFileFacts(c: Cursor, before: seq<FilePatch>, file: string, hunks: seq<TextHunk>)
    requires InFile(c, before, file, hunks)
    ensures |c.files| == |before| + 1 && ReadBack(c.files[|before|], Edit(file, Changed, hunks))
  {
  }

  lemma HeadersRun(c: Cursor, e: Edit, q: Quoting)
    requires WellPlaced(c) && PlainPath(e.file)
    ensures InFile(Run(c, Headers(e), q), c.files, e.file, [])
  {
    hide Classify, PlainPath;
    var h := Headers(e);
    assert h == [h[0]] + [h[1]] + [h[2]];
    RunAppend(c, [h[0]] + [h[1]], [h[2]], q);
    RunAppend(c, [h[0]], [h[1]], q);
    RunSingle(c, h[0], q);
    var c1 := Step(c, Classify(h[0], q));
    RunSingle(c1, h[1], q);
    var c2 := Step(c1, Classify(h[1], q));
    RunSingle(c2, h[2], q);
    DiffHeaderRead(e.file, q);
    MinusHeaderRead(e.file, q);
    PlusHeaderRead(e.file, q);
    NoFileRead(q);
    PathNotEmpty(e.file);
  }

  /** The parsed files are the edits, one for one. */
  predicate AllReadBack(files: seq<FilePatch>, edits: seq<Edit>) {
    |files| == |edits| && forall i :: 0 <= i < |edits| ==> ReadBack(files[i], edits[i])
  }

  lemma EditRun(c: Cursor, e: Edit, q: Quoting)
    requires WellPlaced(c) && PlainEdit(e, q)
    ensures var files := Run(c, Headers(e) + HunkTexts(e.hunks), q).files;
            |files| == |c.files| + 1 && files[..|c.files|] == c.files && ReadBack(files[|c.files|], e)
  {
    hide Run, Classify, ReadBack, PlainHunk, PlainPath, Headers, HunkTexts;
    RunAppend(c, Headers(e), HunkTexts(e.hunks), q);
    HeadersRun(c, e, q);
    HunksRun(Run(c, Headers(e), q), c.files, e.file, e.hunks, q);
    SameFile(Run(c, Headers(e) + HunkTexts(e.hunks), q).files[|c.files|], e);
  }

  lemma {:induction false} RenderedRun(edits: seq<Edit>, q: Quoting)
    requires AllPlain(edits, q)
    ensures AllReadBack(Run(START, Rendered(edits), q).files, edits)
  {
    hide Run, ReadBack, PlainEdit, Headers, HunkTexts;
    if edits == [] {
      RunNone(q);
    } else {
      var init, e := edits[..|edits| - 1], edits[|edits| - 1];
      RenderedRun(init, q);
      RunAppend(START, Rendered(init), Headers(e) + HunkTexts(e.hunks), q);
      EditRun(Run(START, Rendered(init), q), e, q);
    }
  }

  lemma RunNone(q: Quoting)
    ensures Run(START, [], q) == START
  {
  }

  lemma SameFile(p: FilePatch, e: Edit)
    requires ReadBack(p, Edit(e.file, Changed, e.hunks))
    ensures ReadBack(p, e)
  {
  }

  predicate AllUnbroken(lines: seq<string>) {
    forall i :: 0 <= i < |lines| ==> Unbroken(lines[i])
  }

  lemma {:induction false} DigitsUnbroken(n: nat)
    ensures Unbroken(Digits(n))
  {
    DigitsAreNumber(n);
  }

  lemma HunkTextUnbroken(h: TextHunk)
    ensures Unbroken(HunkText(h))
  {
    hide Digits, Count;
    DigitsUnbroken(h.oldStart);
    DigitsUnbroken(h.newStart);
    DigitsUnbroken(Count(h.lines, Added));
    DigitsUnbroken(Count(h.lines, Removed));
  }

  lemma HeadersUnbroken(e: Edit)
    requires PlainPath(e.file)
    ensures AllUnbroken(Headers(e))
  {
    forall i | 0 <= i < |e.file| ensures e.file[i] != '\n' && e.file[i] != '\r' {
      assert !IsSpace(e.file[i]);
    }
  }

  predicate Writable(e: Edit) {
    && PlainPath(e.file)
    && forall i, j :: 0 <= i < |e.hunks| && 0 <= j < |e.hunks[i].lines| ==> Unbroken(e.hunks[i].lines[j].text)
  }

  predicate AllWritable(edits: seq<Edit>) {
    forall i :: 0 <= i < |edits| ==> Writable(edits[i])
  }

  lemma {:induction false} LinesUnbroken(lines: seq<TextLine>)
    requires forall i :: 0 <= i < |lines| ==> Unbroken(lines[i].text)
    ensures AllUnbroken(LineTexts(lines))
  {
    if lines != [] {
      LinesUnbroken(lines[..|lines| - 1]);
      var last := lines[|lines| - 1];
      assert Unbroken(Sign(last.kind) + last.text);
    }
  }

  lemma {:induction false} HunksUnbroken(hunks: seq<TextHunk>)
    requires forall i, j :: 0 <= i < |hunks| && 0 <= j < |hunks[i].lines| ==> Unbroken(hunks[i].lines[j].text)
    ensures AllUnbroken(HunkTexts(hunks))
  {
    hide HunkText, LineTexts, Unbroken;
    if hunks != [] {
      HunksUnbroken(hunks[..|hunks| - 1]);
      HunkTextUnbroken(hunks[|hunks| - 1]);
      LinesUnbroken(hunks[|hunks| - 1].lines);
    }
  }

  lemma {:induction false} RenderedUnbroken(edits: seq<Edit>)
    requires AllWritable(edits)
    ensures AllUnbroken(Rendered(edits))
  {
    hide Headers, HunkTexts, Unbroken, PlainPath;
    if edits != [] {
      var e := edits[|edits| - 1];
      assert Writable(e);
      RenderedUnbroken(edits[..|edits| - 1]);
      HeadersUnbroken(e);
      HunksUnbroken(e.hunks);
    }
  }

  lemma PlainIsWritable(edits: seq<Edit>, q: Quoting)
    requires AllPlain(edits, q)
    ensures AllWritable(edits)
  {
    hide PathHeader, PlainPath;
    forall i | 0 <= i < |edits| ensures Writable(edits[i]) {
      assert PlainEdit(edits[i], q);
      forall j, k | 0 <= j < |edits[i].hunks| && 0 <= k < |edits[i].hunks[j].lines|
        ensures Unbroken(edits[i].hunks[j].lines[k].text)
      {
        assert PlainHunk(edits[i].hunks[j], q) && PlainLine(edits[i].hunks[j].lines[k], q);
      }
    }
  }

  /** Parsing the text of a rendered list of edits gives the edits back, with every line indexed. */
  lemma ParseOfRendered(edits: seq<Edit>, q: Quoting)
    requires AllPlain(edits, q)
    ensures var files := Run(START, SplitLines(JoinLines(Rendered(edits))), q).files;
            AllReadBack(files, edits) && AllIndexed(files)
  {
    hide Run, AllReadBack, AllIndexed, Classify;
    ParsedLinesAreIndexed(SplitLines(JoinLines(Rendered(edits))), q);
    if edits == [] {
      NothingRendered(q);
    } else {
      PlainIsWritable(edits, q);
      RenderedUnbroken(edits);
      SplitJoin(Rendered(edits));
      RenderedRun(edits, q);
    }
  }

  lemma NothingRendered(q: Quoting)
    ensures AllReadBack(Run(START, SplitLines(JoinLines(Rendered([]))), q).files, [])
  {
    assert SplitLines("") == [""];
    RunSingle(START, "", q);
    NotMetadata("", q);
    assert Classify("", q) == Body("");
  }

  // ------------------------------------------------------- what a mimicked header costs

  /** Written out, the line looks like a path header. */
  predicate Mimics(line: TextLine, q: Quoting) {
    var raw := Sign(line.kind) + line.text;
    (StartsWith(raw, "+++") || StartsWith(raw, "---")) && PathHeader(raw, q).Some?
  }

  predicate SomeMimics(lines: seq<TextLine>, q: Quoting) {
    exists i :: 0 <= i < |lines| && Mimics(lines[i], q)
  }

  predicate HunksMimic(hunks: seq<TextHunk>, q: Quoting) {
    exists i :: 0 <= i < |hunks| && SomeMimics(hunks[i].lines, q)
  }

  predicate EditsMimic(edits: seq<Edit>, q: Quoting) {
    exists i :: 0 <= i < |edits| && HunksMimic(edits[i].hunks, q)
  }

  /** The texts a parse has collected. */
  function Total(files: seq<FilePatch>): nat {
    if files == [] then 0
    else Total(files[..|files| - 1]) + |files[|files| - 1].addedLines| + |files[|files| - 1].removedLines|
  }

  /** A line can add a text only if it is content with a sign. */
  function Weight(line: Line): nat {
    if line.Body? && (StartsWith(line.raw, "+") || StartsWith(line.raw, "-")) then 1 else 0
  }

  function Weights(lines: seq<string>, q: Quoting): nat {
    if lines == [] then 0 else Weights(lines[..|lines| - 1], q) + Weight(Classify(lines[|lines| - 1], q))
  }

  lemma TotalOfLast(files: seq<FilePatch>, p: FilePatch)
    ensures Total(files + [p]) == Total(files) + |p.addedLines| + |p.removedLines|
    ensures files != [] ==>
      (Total(files[|files| - 1 := p]) + |files[|files| - 1].addedLines| + |files[|files| - 1].removedLines|
       == Total(files) + |p.addedLines| + |p.removedLines|)
  {
    assert (files + [p])[..|files|] == files;
    if files != [] { assert files[|files| - 1 := p][..|files| - 1] == files[..|files| - 1]; }
  }

  lemma OpenAdds(c: Cursor, file: string)
    ensures Total(Open(c, file).files) == Total(c.files)
  {
    TotalOfLast(c.files, FilePatch(file, [], [], false, [], []));
  }

  lemma UpdateAdds(c: Cursor, p: FilePatch)
    requires WellPlaced(c) && c.current
    ensures Total(Update(c, p).files) ==
            Total(c.files) - |Last(c).addedLines| - |Last(c).removedLines| + |p.addedLines| + |p.removedLines|
  {
    TotalOfLast(c.files, p);
  }

  lemma MarkAdds(c: Cursor, r: Reason)
    requires WellPlaced(c)
    ensures WellPlaced(MarkOne(c, r)) && Total(MarkOne(c, r).files) == Total(c.files)
  {
    hide Total;
    var c1 := c.(pending := Union(c.pending, r));
    if c1.diffFile.Some? { OpenAdds(c1, c1.diffFile.value); }
    var c2 := if !c1.current && c1.diffFile.Some? && c1.diffFile.value != "" then Open(c1, c1.diffFile.value) else c1;
    if c2.current {
      UpdateAdds(c2, Last(c2).(reasons := Union(Last(c2).reasons, r), binary := Last(c2).binary || r == Binary));
    }
  }

  lemma HeadedAdds(c: Cursor, path: Option<string>)
    requires WellPlaced(c)
    ensures Total(Headed(c, path).files) == Total(c.files)
  {
    hide Total;
    var file := if path.Some? then path else c.minusFile;
    if file.Some? { OpenAdds(c, file.value); }
    var c1 :=
      if file.None? || file.value == "" then c.(current := false, inHunk := false)
      else if !c.current || Last(c).file != file.value then Open(c, file.value)
      else c.(inHunk := false);
    if c1.current && c1.pending != [] {
      UpdateAdds(c1, Last(c1).(reasons := c1.pending, binary := Binary in c1.pending));
    }
  }

  lemma ContentAdds(p: FilePatch, inHunk: bool, raw: string)
    requires inHunk ==> p.hunks != []
    ensures var now := Content(p, inHunk, raw);
            |now.addedLines| + |now.removedLines| == |p.addedLines| + |p.removedLines| + Weight(Body(raw))
  {
  }

  lemma StepAdds(c: Cursor, line: Line)
    requires WellPlaced(c)
    ensures Total(Step(c, line).files) <= Total(c.files) + Weight(line)
  {
    hide Total, MarkOne, Headed, Content, Update;
    match line
    case Mark(reasons) =>
      if |reasons| > 0 { MarkAdds(c, reasons[0]); }
      if |reasons| > 1 { MarkAdds(MarkOne(c, reasons[0]), reasons[1]); }
    case PlusHeader(path) => HeadedAdds(c, path);
    case HunkHeader(o, n) => if c.current { UpdateAdds(c, Last(c).(hunks := Last(c).hunks + [Hunk(o, n, [])])); }
    case Body(raw) =>
      if c.current {
        ContentAdds(Last(c), c.inHunk, raw);
        UpdateAdds(c, Content(Last(c), c.inHunk, raw));
      }
    case _ =>
  }

  lemma {:induction false} RunAdds(c: Cursor, lines: seq<string>, q: Quoting)
    requires WellPlaced(c)
    ensures Total(Run(c, lines, q).files) <= Total(c.files) + Weights(lines, q)
  {
    hide Step, Classify, Total, Weight;
    if lines != [] {
      RunAdds(c, lines[..|lines| - 1], q);
      StepAdds(Run(c, lines[..|lines| - 1], q), Classify(lines[|lines| - 1], q));
    }
  }

  lemma {:induction false} WeightsConcat(a: seq<string>, b: seq<string>, q: Quoting)
    ensures Weights(a + b, q) == Weights(a, q) + Weights(b, q)
  {
    hide Classify, Weight;
    if b == [] {
      assert a + b == a;
    } else {
      assert (a + b)[..|a + b| - 1] == a + b[..|b| - 1];
      WeightsConcat(a, b[..|b| - 1], q);
    }
  }

  // --------------------------------------------------------- the weight of a rendered list

  function Changes(lines: seq<TextLine>): nat { |Texts(lines, Added)| + |Texts(lines, Removed)| }

  lemma LineWeight(line: TextLine, q: Quoting)
    requires Unbroken(line.text)
    ensures var w := Weight(Classify(Sign(line.kind) + line.text, q));
            w == (if line.kind == Context || Mimics(line, q) then 0 else 1)
    ensures line.kind == Context ==> !Mimics(line, q)
  {
    hide PathHeader, DiffFile, ModeLine, GitlinkIndex, RenameLine, BinaryLine, ReadHunk;
    var s := Sign(line.kind) + line.text;
    assert s[0] == Sign(line.kind)[0];
    if Mimics(line, q) {
      NotMetadata(s, q);
    } else {
      BodyRead(line, q);
      SignShows(line);
    }
  }

  lemma SignShows(line: TextLine)
    ensures var s := Sign(line.kind) + line.text;
            (StartsWith(s, "+") <==> line.kind == Added) && (StartsWith(s, "-") <==> line.kind == Removed)
  {
    assert (Sign(line.kind) + line.text)[0] == Sign(line.kind)[0];
  }

  lemma {:induction false} LinesWeight(lines: seq<TextLine>, q: Quoting)
    requires forall i :: 0 <= i < |lines| ==> Unbroken(lines[i].text)
    ensures Weights(LineTexts(lines), q) <= Changes(lines)
    ensures SomeMimics(lines, q) ==> Weights(LineTexts(lines), q) < Changes(lines)
  {
    hide Classify, Weight, Mimics;
    if lines != [] {
      var init, last := lines[..|lines| - 1], lines[|lines| - 1];
      LinesWeight(init, q);
      LineWeight(last, q);
      TextsExtended(init, last);
      assert init + [last] == lines;
      assert SomeMimics(lines, q) ==> SomeMimics(init, q) || Mimics(last, q);
      var texts := LineTexts(lines);
      assert texts[..|texts| - 1] == LineTexts(init);
      assert |Texts(lines, Added)| == |Texts(init, Added)| + (if last.kind == Added then 1 else 0);
      assert |Texts(lines, Removed)| == |Texts(init, Removed)| + (if last.kind == Removed then 1 else 0);
    }
  }

  function HunkChanges(hunks: seq<TextHunk>): nat {
    |AllTexts(hunks, Added)| + |AllTexts(hunks, Removed)|
  }

  lemma HunkChangesMore(hunks: seq<TextHunk>)
    requires hunks != []
    ensures HunkChanges(hunks) == HunkChanges(hunks[..|hunks| - 1]) + Changes(hunks[|hunks| - 1].lines)
  {
    hide Texts;
  }

  lemma NoWeight(line: string, q: Quoting)
    requires !Classify(line, q).Body?
    ensures Weights([line], q) == 0
  {
    hide Classify;
    assert [line][..0] == [];
  }

  lemma {:induction false} HunksWeight(hunks: seq<TextHunk>, q: Quoting)
    requires forall i, j :: 0 <= i < |hunks| && 0 <= j < |hunks[i].lines| ==> Unbroken(hunks[i].lines[j].text)
    ensures Weights(HunkTexts(hunks), q) <= HunkChanges(hunks)
    ensures HunksMimic(hunks, q) ==> Weights(HunkTexts(hunks), q) < HunkChanges(hunks)
  {
    hide Weights, Changes, HunkChanges, SomeMimics, LineTexts, HunkText, Unbroken, Classify;
    if hunks == [] {
      NothingWeighs(q);
    } else {
      var init, h := hunks[..|hunks| - 1], hunks[|hunks| - 1];
      HunksWeight(init, q);
      HunkChangesMore(hunks);
      LinesWeight(h.lines, q);
      HunkRead(h, q);
      NoWeight(HunkText(h), q);
      WeightsConcat(HunkTexts(init), [HunkText(h)] + LineTexts(h.lines), q);
      WeightsConcat([HunkText(h)], LineTexts(h.lines), q);
    }
  }

  lemma NothingWeighs(q: Quoting)
    ensures Weights([], q) == 0 && Total([]) == 0
  {
  }

  lemma HeadersWeight(e: Edit, q: Quoting)
    requires PlainPath(e.file)
    ensures Weights(Headers(e), q) == 0
  {
    hide Classify, PlainPath, Weights;
    var h := Headers(e);
    assert h == [h[0]] + ([h[1]] + [h[2]]);
    DiffHeaderRead(e.file, q);
    MinusHeaderRead(e.file, q);
    PlusHeaderRead(e.file, q);
    NoFileRead(q);
    NoWeight(h[0], q);
    NoWeight(h[1], q);
    NoWeight(h[2], q);
    WeightsConcat([h[0]], [h[1]] + [h[2]], q);
    WeightsConcat([h[1]], [h[2]], q);
  }

  /** All the added and removed lines of some edits. */
  function EditChanges(edits: seq<Edit>): nat {
    if edits == [] then 0 else EditChanges(edits[..|edits| - 1]) + HunkChanges(edits[|edits| - 1].hunks)
  }

  lemma {:induction false} RenderedWeight(edits: seq<Edit>, q: Quoting)
    requires AllWritable(edits)
    ensures Weights(Rendered(edits), q) <= EditChanges(edits)
    ensures EditsMimic(edits, q) ==> Weights(Rendered(edits), q) < EditChanges(edits)
  {
    hide Weights, HunkChanges, HunksMimic, HunkTexts, Headers, PlainPath, Classify, Unbroken;
    if edits == [] {
      NothingWeighs(q);
    } else {
      var init, e := edits[..|edits| - 1], edits[|edits| - 1];
      assert Writable(e);
      RenderedWeight(init, q);
      HeadersWeight(e, q);
      HunksWeight(e.hunks, q);
      WeightsConcat(Rendered(init), Headers(e) + HunkTexts(e.hunks), q);
      WeightsConcat(Headers(e), HunkTexts(e.hunks), q);
    }
  }

  lemma {:induction false} ReadBackTotal(files: seq<FilePatch>, edits: seq<Edit>)
    requires AllReadBack(files, edits)
    ensures Total(files) == EditChanges(edits)
  {
    if files != [] {
      ReadBackTotal(files[..|files| - 1], edits[..|edits| - 1]);
      assert ReadBack(files[|files| - 1], edits[|files| - 1]);
    }
  }

  /** A mimicking line leaves the parse short of texts. */
  lemma MimicryLosesText(edits: seq<Edit>, q: Quoting)
    requires AllWritable(edits) && EditsMimic(edits, q)
    ensures Total(Run(START, Rendered(edits), q).files) < EditChanges(edits)
    ensures !AllReadBack(Run(START, Rendered(edits), q).files, edits)
  {
    hide Run, Weights, EditsMimic, AllWritable, Classify, ReadBack;
    RunAdds(START, Rendered(edits), q);
    NothingWeighs(q);
    RenderedWeight(edits, q);
    var files := Run(START, Rendered(edits), q).files;
    if AllReadBack(files, edits) { ReadBackTotal(files, edits); }
  }

  lemma PlainIffNoMimicry(edits: seq<Edit>, q: Quoting)
    requires AllWritable(edits)
    ensures AllPlain(edits, q) <==> !EditsMimic(edits, q)
  {
    hide PathHeader, PlainPath, Unbroken;
    forall i | 0 <= i < |edits| ensures PlainEdit(edits[i], q) <==> !HunksMimic(edits[i].hunks, q) {
      EditPlainIff(edits[i], q);
    }
  }

  lemma EditPlainIff(e: Edit, q: Quoting)
    requires Writable(e)
    ensures PlainEdit(e, q) <==> !HunksMimic(e.hunks, q)
  {
    hide PathHeader, PlainPath, Unbroken;
    forall i | 0 <= i < |e.hunks| ensures PlainHunk(e.hunks[i], q) <==> !SomeMimics(e.hunks[i].lines, q) {
      forall j | 0 <= j < |e.hunks[i].lines|
        ensures PlainLine(e.hunks[i].lines[j], q) <==> !Mimics(e.hunks[i].lines[j], q)
      {
        assert Unbroken(e.hunks[i].lines[j].text);
      }
    }
  }

  /**
   * For edits of plain paths whose lines hold no line break, the round trip succeeds exactly when no
   * added or removed line looks like a path header.
   */
  lemma RoundTripIff(edits: seq<Edit>, q: Quoting)
    requires AllWritable(edits)
    ensures AllReadBack(Run(START, SplitLines(JoinLines(Rendered(edits))), q).files, edits) <==> !EditsMimic(edits, q)
  {
    hide Run, AllReadBack, AllIndexed, EditsMimic, AllWritable, AllPlain, SplitLines, Rendered;
    PlainIffNoMimicry(edits, q);
    if EditsMimic(edits, q) {
      MimickingIsWritten(edits, q);
      RenderedUnbroken(edits);
      SplitJoin(Rendered(edits));
      MimicryLosesText(edits, q);
    } else {
      ParseOfRendered(edits, q);
    }
  }

  lemma MimickingIsWritten(edits: seq<Edit>, q: Quoting)
    requires EditsMimic(edits, q)
    ensures Rendered(edits) != []
  {
  }

  /** Only changed lines can mimic. */
  lemma ContextNeverMimics(text: string, q: Quoting)
    ensures !Mimics(TextLine(Context, text), q)
  {
    assert (Sign(Context) + text)[0] == ' ';
  }

  /** An added line whose text is `++ b/x` does. */
  lemma MimickingLine(q: Quoting)
    ensures Mimics(TextLine(Added, "++ b/x"), q)
  {
    PathRead("+++", "b/", "x", q);
    assert Sign(Added) + "++ b/x" == "+++" + " " + "b/" + "x";
    Prefixed("+++", " b/x");
  }
}
