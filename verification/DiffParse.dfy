/** From the text of a git patch to the added and removed lines of each file. */
module DiffParse {
  import opened Wrappers
  import opened DiffLines

  datatype Kind = Context | Added | Removed

  /** `changedIndex` is meant for added and removed lines. */
  datatype HunkLine = HunkLine(kind: Kind, text: string, changedIndex: nat)

  datatype Hunk = Hunk(oldStart: nat, newStart: nat, lines: seq<HunkLine>)

  datatype FilePatch = FilePatch(
    file: string, addedLines: seq<string>, removedLines: seq<string>,
    binary: bool, reasons: seq<Reason>, hunks: seq<Hunk>)

  /** The variables of the line loop: `current` and `inHunk` are about the last file and its last hunk. */
  datatype Cursor = Cursor(
    files: seq<FilePatch>, current: bool, inHunk: bool,
    minusFile: Option<string>, diffFile: Option<string>, pending: seq<Reason>)

  predicate WellPlaced(c: Cursor) {
    && (c.current ==> c.files != [])
    && (c.inHunk ==> c.current && c.files[|c.files| - 1].hunks != [])
  }

  const START := Cursor([], false, false, None, None, [])

  function Union(reasons: seq<Reason>, r: Reason): seq<Reason> {
    if r in reasons then reasons else reasons + [r]
  }

  function Last(c: Cursor): FilePatch
    requires WellPlaced(c) && c.current
  {
    c.files[|c.files| - 1]
  }

  function Open(c: Cursor, file: string): Cursor {
    c.(files := c.files + [FilePatch(file, [], [], false, [], [])], current := true, inHunk := false)
  }

  function Update(c: Cursor, patch: FilePatch): Cursor
    requires WellPlaced(c) && c.current
  {
    c.(files := c.files[|c.files| - 1 := patch])
  }

  function MarkOne(c: Cursor, r: Reason): Cursor
    requires WellPlaced(c)
  {
    var c1 := c.(pending := Union(c.pending, r));
    var c2 := if !c1.current && c1.diffFile.Some? && c1.diffFile.value != "" then Open(c1, c1.diffFile.value) else c1;
    if !c2.current then c2
    else Update(c2, Last(c2).(reasons := Union(Last(c2).reasons, r), binary := Last(c2).binary || r == Binary))
  }

  /** Adds a line to the open hunk. */
  function Noted(p: FilePatch, inHunk: bool, line: HunkLine): FilePatch
    requires inHunk ==> p.hunks != []
  {
    if !inHunk then p
    else
      var n := |p.hunks| - 1;
      p.(hunks := p.hunks[n := p.hunks[n].(lines := p.hunks[n].lines + [line])])
  }

  /** A line of the current file that is not a header. */
  function Content(p: FilePatch, inHunk: bool, raw: string): FilePatch
    requires inHunk ==> p.hunks != []
  {
    if StartsWith(raw, "+") then
      Noted(p.(addedLines := p.addedLines + [raw[1..]]), inHunk, HunkLine(Added, raw[1..], |p.addedLines|))
    else if StartsWith(raw, "-") then
      Noted(p.(removedLines := p.removedLines + [raw[1..]]), inHunk, HunkLine(Removed, raw[1..], |p.removedLines|))
    else if StartsWith(raw, " ") then Noted(p, inHunk, HunkLine(Context, raw[1..], 0))
    else p
  }

  /** What the `+++` header makes current. */
  function Headed(c: Cursor, path: Option<string>): Cursor
    requires WellPlaced(c)
  {
    var file := if path.Some? then path else c.minusFile;
    var c1 :=
      if file.None? || file.value == "" then c.(current := false, inHunk := false)
      else if !c.current || Last(c).file != file.value then Open(c, file.value)
      else c.(inHunk := false);
    if c1.current && c1.pending != [] then Update(c1, Last(c1).(reasons := c1.pending, binary := Binary in c1.pending))
    else c1
  }

  function Step(c: Cursor, line: Line): (r: Cursor)
    requires WellPlaced(c)
    ensures WellPlaced(r)
  {
    match line
    case DiffHeader(file) => Cursor(c.files, false, false, None, Some(file), [])
    case Mark(reasons) =>
      if |reasons| == 0 then c
      else
        var first := MarkOne(c, reasons[0]);
        if |reasons| == 1 then first else MarkOne(first, reasons[1])
    case PlusHeader(path) => Headed(c, path)
    case MinusHeader(path) => c.(minusFile := path)
    case HunkHeader(oldStart, newStart) =>
      if !c.current then c
      else Update(c, Last(c).(hunks := Last(c).hunks + [Hunk(oldStart, newStart, [])])).(inHunk := true)
    case Body(raw) => if !c.current then c else Update(c, Content(Last(c), c.inHunk, raw))
  }

  function Run(c: Cursor, lines: seq<string>, q: Quoting): (r: Cursor)
    requires WellPlaced(c)
    ensures WellPlaced(r)
  {
    if lines == [] then c
    else Step(Run(c, lines[..|lines| - 1], q), Classify(lines[|lines| - 1], q))
  }

  lemma RunStart(lines: seq<string>, q: Quoting)
    ensures Run(START, lines[..0], q) == START
  {
  }

  lemma RunOne(lines: seq<string>, i: nat, q: Quoting)
    requires i < |lines|
    ensures Run(START, lines[..i + 1], q) == Step(Run(START, lines[..i], q), Classify(lines[i], q))
  {
    assert lines[..i + 1][..i] == lines[..i];
  }

  /** The parser: one pass over the lines of the text, with its variables. */
  method ParseFilePatches(patch: string, q: Quoting) returns (files: seq<FilePatch>)
    ensures files == Run(START, SplitLines(patch), q).files
  {
    hide Classify, Content, Run, MarkOne, SplitLines;
    var lines := SplitLines(patch);
    files := [];
    var current, inHunk := false, false;
    var minusFile: Option<string>, diffFile: Option<string> := None, None;
    var pending: seq<Reason> := [];
    var i := 0;
    RunStart(lines, q);
    while i < |lines|
      invariant 0 <= i <= |lines| && WellPlaced(Cursor(files, current, inHunk, minusFile, diffFile, pending))
      invariant Cursor(files, current, inHunk, minusFile, diffFile, pending) == Run(START, lines[..i], q)
    {
      RunOne(lines, i, q);
      ghost var before := Cursor(files, current, inHunk, minusFile, diffFile, pending);
      match Classify(lines[i], q) {
        case DiffHeader(file) =>
          diffFile, current, inHunk, minusFile, pending := Some(file), false, false, None, [];
        case Mark(reasons) =>
          var c := Step(Cursor(files, current, inHunk, minusFile, diffFile, pending), Mark(reasons));
          files, current, inHunk, minusFile, diffFile, pending :=
            c.files, c.current, c.inHunk, c.minusFile, c.diffFile, c.pending;
        case PlusHeader(path) =>
          var file := if path.Some? then path else minusFile;
          if file.None? || file.value == "" {
            current := false;
          } else if !current || files[|files| - 1].file != file.value {
            files := files + [FilePatch(file.value, [], [], false, [], [])];
            current := true;
          }
          inHunk := false;
          if current && pending != [] {
            files := files[|files| - 1 := files[|files| - 1].(reasons := pending, binary := Binary in pending)];
          }
        case MinusHeader(path) => minusFile := path;
        case HunkHeader(oldStart, newStart) =>
          if current {
            var patched := files[|files| - 1];
            files := files[|files| - 1 := patched.(hunks := patched.hunks + [Hunk(oldStart, newStart, [])])];
            inHunk := true;
          }
        case Body(raw) =>
          if current { files := files[|files| - 1 := Content(files[|files| - 1], inHunk, raw)]; }
      }
      assert Cursor(files, current, inHunk, minusFile, diffFile, pending) == Step(before, Classify(lines[i], q));
      i := i + 1;
    }
    assert lines[..i] == lines;
  }

  // --------------------------------------------------- where a hunk line is in the line lists

  function Flat(hunks: seq<Hunk>): seq<HunkLine> {
    if hunks == [] then [] else Flat(hunks[..|hunks| - 1]) + hunks[|hunks| - 1].lines
  }

  /** Changed lines point at their own text. */
  predicate Points(lines: seq<HunkLine>, kind: Kind, texts: seq<string>) {
    forall i :: 0 <= i < |lines| && lines[i].kind == kind ==>
      lines[i].changedIndex < |texts| && texts[lines[i].changedIndex] == lines[i].text
  }

  predicate Increasing(lines: seq<HunkLine>, kind: Kind) {
    forall i, j :: 0 <= i < j < |lines| && lines[i].kind == kind && lines[j].kind == kind ==>
      lines[i].changedIndex < lines[j].changedIndex
  }

  /** Each changed line of a hunk points at its text, and later lines point further. */
  predicate Indexed(p: FilePatch) {
    var lines := Flat(p.hunks);
    && Points(lines, Added, p.addedLines) && Points(lines, Removed, p.removedLines)
    && Increasing(lines, Added) && Increasing(lines, Removed)
  }

  predicate AllIndexed(files: seq<FilePatch>) {
    forall i :: 0 <= i < |files| ==> Indexed(files[i])
  }

  lemma FlatExtended(hunks: seq<Hunk>, line: HunkLine)
    requires hunks != []
    ensures var n := |hunks| - 1;
            Flat(hunks[n := hunks[n].(lines := hunks[n].lines + [line])]) == Flat(hunks) + [line]
  {
    var n := |hunks| - 1;
    var longer := hunks[n := hunks[n].(lines := hunks[n].lines + [line])];
    assert longer[..n] == hunks[..n];
  }

  lemma PointsFurther(lines: seq<HunkLine>, line: HunkLine, kind: Kind, texts: seq<string>, more: seq<string>)
    requires Points(lines, kind, texts) && Increasing(lines, kind)
    requires if line.kind == kind then more == texts + [line.text] && line.changedIndex == |texts| else more == texts
    ensures Points(lines + [line], kind, more) && Increasing(lines + [line], kind)
  {
  }

  lemma PointsStill(lines: seq<HunkLine>, kind: Kind, texts: seq<string>, more: seq<string>)
    requires Points(lines, kind, texts) && texts <= more
    ensures Points(lines, kind, more)
  {
  }

  lemma ContentIndexed(p: FilePatch, inHunk: bool, raw: string)
    requires Indexed(p) && (inHunk ==> p.hunks != [])
    ensures Indexed(Content(p, inHunk, raw))
  {
    hide Points, Increasing, Flat;
    var line, p1 :=
      if StartsWith(raw, "+") then HunkLine(Added, raw[1..], |p.addedLines|)
      else if StartsWith(raw, "-") then HunkLine(Removed, raw[1..], |p.removedLines|)
      else HunkLine(Context, "", 0),
      Content(p, inHunk, raw);
    PointsStill(Flat(p.hunks), Added, p.addedLines, p1.addedLines);
    PointsStill(Flat(p.hunks), Removed, p.removedLines, p1.removedLines);
    if inHunk && (StartsWith(raw, "+") || StartsWith(raw, "-") || StartsWith(raw, " ")) {
      assert raw[0] == '+' || raw[0] == '-' || raw[0] == ' ';
      var noted := if raw[0] == ' ' then HunkLine(Context, raw[1..], 0) else line;
      FlatExtended(p.hunks, noted);
      PointsFurther(Flat(p.hunks), noted, Added, p.addedLines, p1.addedLines);
      PointsFurther(Flat(p.hunks), noted, Removed, p.removedLines, p1.removedLines);
    }
  }

  lemma EmptyIndexed(file: string)
    ensures Indexed(FilePatch(file, [], [], false, [], []))
  {
  }

  lemma NewHunkIndexed(p: FilePatch, oldStart: nat, newStart: nat)
    requires Indexed(p)
    ensures Indexed(p.(hunks := p.hunks + [Hunk(oldStart, newStart, [])]))
  {
    assert (p.hunks + [Hunk(oldStart, newStart, [])])[..|p.hunks|] == p.hunks;
    assert Flat(p.hunks) + [] == Flat(p.hunks);
  }

  lemma MarkIndexed(c: Cursor, r: Reason)
    requires WellPlaced(c) && AllIndexed(c.files)
    ensures WellPlaced(MarkOne(c, r)) && AllIndexed(MarkOne(c, r).files)
  {
    hide Points, Increasing, Flat;
    if c.diffFile.Some? { EmptyIndexed(c.diffFile.value); }
  }

  lemma StepIndexed(c: Cursor, line: Line)
    requires WellPlaced(c) && AllIndexed(c.files)
    ensures AllIndexed(Step(c, line).files)
  {
    hide Indexed, Content, MarkOne;
    match line
    case Mark(reasons) =>
      if |reasons| > 0 { MarkIndexed(c, reasons[0]); }
      if |reasons| > 1 { MarkIndexed(MarkOne(c, reasons[0]), reasons[1]); }
    case PlusHeader(path) => HeadedIndexed(c, path);
    case HunkHeader(oldStart, newStart) => if c.current { NewHunkIndexed(Last(c), oldStart, newStart); }
    case Body(raw) => if c.current { ContentIndexed(Last(c), c.inHunk, raw); }
    case _ =>
  }

  lemma HeadedIndexed(c: Cursor, path: Option<string>)
    requires WellPlaced(c) && AllIndexed(c.files)
    ensures AllIndexed(Headed(c, path).files)
  {
    hide Points, Increasing, Flat;
    var file := if path.Some? then path else c.minusFile;
    if file.Some? { EmptyIndexed(file.value); }
  }

  /** For every input whatever. */
  lemma {:induction false} ParsedLinesAreIndexed(lines: seq<string>, q: Quoting)
    ensures AllIndexed(Run(START, lines, q).files)
  {
    hide Step, Classify, Indexed;
    if lines != [] {
      ParsedLinesAreIndexed(lines[..|lines| - 1], q);
      StepIndexed(Run(START, lines[..|lines| - 1], q), Classify(lines[|lines| - 1], q));
    }
  }
}
