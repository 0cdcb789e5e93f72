/** File blocks without text: what mode, rename, submodule and binary lines make of a file. */
module DiffMetadata {
  import opened Wrappers
  import opened ScalarTokenizer
  import opened DiffLines
  import opened DiffParse
  import opened DiffRoundTrip

  /** A metadata line as git writes it. */
  datatype Meta =
    | OldMode(mode: string) | NewMode(mode: string)
    | NewSubmodule | DeletedSubmodule | SubmoduleIndex(before: string, after: string)
    | RenameFrom(path: string) | RenameTo(path: string) | CopyFrom(path: string) | CopyTo(path: string)
    | BinaryFiles(left: string, right: string) | BinaryPatch

  predicate HexWord(s: string) {
    s != "" && forall i :: 0 <= i < |s| ==> IsHex(s[i])
  }

  predicate MetaOk(m: Meta) {
    match m
    case OldMode(mode) => |mode| == 6 && forall i :: 0 <= i < 6 ==> IsDigit(mode[i])
    case NewMode(mode) => |mode| == 6 && forall i :: 0 <= i < 6 ==> IsDigit(mode[i])
    case SubmoduleIndex(before, after) => HexWord(before) && HexWord(after)
    case BinaryFiles(left, right) =>
      left != "" && right != "" && (forall i :: 0 <= i < |left| ==> !LineTerminator(left[i]))
      && (forall i :: 0 <= i < |right| ==> !LineTerminator(right[i]))
    case _ => true
  }

  function MetaText(m: Meta): string {
    match m
    case OldMode(mode) => "old mode " + mode
    case NewMode(mode) => "new mode " + mode
    case NewSubmodule => "new file mode 160000"
    case DeletedSubmodule => "deleted file mode 160000"
    case SubmoduleIndex(before, after) => "index " + before + ".." + after + " 160000"
    case RenameFrom(path) => "rename from " + path
    case RenameTo(path) => "rename to " + path
    case CopyFrom(path) => "copy from " + path
    case CopyTo(path) => "copy to " + path
    case BinaryFiles(left, right) => "Binary files " + left + " and " + right + " differ"
    case BinaryPatch => "GIT binary patch"
  }

  /** Why the file cannot be inspected, by this line. */
  predicate Gives(m: Meta, r: Reason) {
    match m
    case OldMode(mode) => r == ModeChange || (r == Gitlink && mode == "160000")
    case NewMode(mode) => r == ModeChange || (r == Gitlink && mode == "160000")
    case NewSubmodule => r == Gitlink
    case DeletedSubmodule => r == Gitlink
    case SubmoduleIndex(_, _) => r == Gitlink
    case RenameFrom(_) => r == RenameOrCopy
    case RenameTo(_) => r == RenameOrCopy
    case CopyFrom(_) => r == RenameOrCopy
    case CopyTo(_) => r == RenameOrCopy
    case BinaryFiles(_, _) => r == Binary
    case BinaryPatch => r == Binary
  }

  // ----- each line is read as what it is -----

  /** The line is marked with exactly the reasons it gives. */
  ghost predicate ReadsAs(line: Line, m: Meta) {
    line.Mark? && 1 <= |line.reasons| <= 2 && forall r :: r in line.reasons <==> Gives(m, r)
  }

  lemma {:induction false} AllDigitsLength(s: string)
    requires forall i :: 0 <= i < |s| ==> IsDigit(s[i])
    ensures DigitsLength(s) == |s|
    decreases |s|
  {
    if s != "" {
      AllDigitsLength(s[1..]);
    }
  }

  lemma {:induction false} HexWordLength(s: string, v: string)
    requires (forall i :: 0 <= i < |s| ==> IsHex(s[i])) && (v == "" || !IsHex(v[0]))
    ensures HexLength(s + v) == |s|
    decreases |s|
  {
    if s == "" {
      assert s + v == v;
    } else {
      assert (s + v)[1..] == s[1..] + v;
      HexWordLength(s[1..], v);
    }
  }

  lemma ModeRead(sign: string, mode: string, q: Quoting)
    requires sign in {"old mode ", "new mode "} && MetaOk(OldMode(mode))
    ensures Classify(sign + mode, q) == Mark(if mode == "160000" then [ModeChange, Gitlink] else [ModeChange])
  {
    hide GitlinkIndex, RenameLine, PathHeader, BinaryLine, ReadHunk, PlainDiff;
    var s := sign + mode;
    assert s[9..] == mode;
    AllDigitsLength(mode);
    assert s[8..] == " " + mode;
    if EndsWith(s, " 160000") {
      assert s[|s| - 7..] == " " + mode;
      assert mode == (" " + mode)[1..];
    }
  }

  lemma IndexRead(before: string, after: string, q: Quoting)
    requires HexWord(before) && HexWord(after)
    ensures Classify(MetaText(SubmoduleIndex(before, after)), q) == Mark([Gitlink])
  {
    hide RenameLine, PathHeader, BinaryLine, ReadHunk, PlainDiff, ModeLine;
    var s := MetaText(SubmoduleIndex(before, after));
    var rest := before + (".." + after + " 160000");
    assert s == "index " + rest && s[6..] == rest && s[..6] == "index ";
    LowerIndex();
    HexWordLength(before, ".." + after + " 160000");
    assert rest[|before|..] == ".." + after + " 160000";
    var tail := after + " 160000";
    assert rest[|before| + 2..] == tail;
    HexWordLength(after, " 160000");
    assert tail[|after|..] == " 160000";
    NoModeLine(s);
  }

  lemma LowerIndex()
    ensures Lower("index ") == "index "
  {
    assert "index "[1..] == "ndex " && "ndex "[1..] == "dex " && "dex "[1..] == "ex " && "ex "[1..] == "x ";
    assert "x "[1..] == " " && " "[1..] == "";
    assert Lower("") == "";
    assert Lower(" ") == " ";
    assert Lower("x ") == "x ";
    assert Lower("ex ") == "ex ";
    assert Lower("dex ") == "dex ";
    assert Lower("ndex ") == "ndex ";
  }

  lemma NoModeLine(s: string)
    requires s != "" && s[0] !in {'o', 'n'}
    ensures !ModeLine(s)
  {
  }

  lemma RenameRead(sign: string, path: string, q: Quoting)
    requires sign in {"rename from ", "rename to ", "copy from ", "copy to "}
    ensures Classify(sign + path, q) == Mark([RenameOrCopy])
  {
    hide PathHeader, BinaryLine, ReadHunk, PlainDiff, HexLength;
    var s := sign + path;
    assert s[0] == sign[0] && sign[0] in {'r', 'c'};
    NotIndex(s);
  }

  lemma NotIndex(s: string)
    requires s != "" && s[0] !in {'i', 'I'}
    ensures !GitlinkIndex(s)
  {
    hide HexLength;
    if |s| >= 6 {
      assert Lower(s[..6])[0] != 'i';
    }
  }

  lemma BinaryRead(left: string, right: string, q: Quoting)
    requires MetaOk(BinaryFiles(left, right))
    ensures Classify(MetaText(BinaryFiles(left, right)), q) == Mark([Binary])
  {
    hide PathHeader, ReadHunk, PlainDiff, HexLength;
    var s := MetaText(BinaryFiles(left, right));
    var middle := left + " and " + right;
    assert s == "Binary files " + middle + " differ";
    NotIndex(s);
    forall i | 13 <= i < |s| - 7
      ensures !LineTerminator(s[i])
    {
      assert s[i] == middle[i - 13];
    }
  }

  lemma SubmoduleRead(s: string, q: Quoting)
    requires s in {"new file mode 160000", "deleted file mode 160000"}
    ensures Classify(s, q) == Mark([Gitlink])
  {
    hide GitlinkIndex, RenameLine, PathHeader, BinaryLine, ReadHunk, PlainDiff, ModeLine;
    NoMode(s);
    assert s[0] in {'n', 'd'} && s[1] == 'e';
  }

  lemma NoMode(s: string)
    requires s in {"new file mode 160000", "deleted file mode 160000"}
    ensures !ModeLine(s)
  {
    assert s == "new file mode 160000" ==> s[4] == 'f' && "new mode "[4] == 'm';
  }

  lemma PatchRead(q: Quoting)
    ensures Classify("GIT binary patch", q) == Mark([Binary])
  {
    hide GitlinkIndex, RenameLine, PathHeader, ReadHunk, PlainDiff, ModeLine;
    var s := "GIT binary patch";
    assert s[0] == 'G';
    NotIndex(s);
    NoModeLine(s);
    NoRename(s);
  }

  lemma NoRename(s: string)
    requires s != "" && s[0] !in {'r', 'c'}
    ensures !RenameLine(s)
  {
  }

  /** Every metadata line is read as what it is. */
  lemma MetaRead(m: Meta, q: Quoting)
    requires MetaOk(m)
    ensures ReadsAs(Classify(MetaText(m), q), m)
  {
    hide Classify;
    match m
    case OldMode(mode) => ModeRead("old mode ", mode, q);
    case NewMode(mode) => ModeRead("new mode ", mode, q);
    case SubmoduleIndex(before, after) => IndexRead(before, after, q);
    case RenameFrom(path) => RenameRead("rename from ", path, q);
    case RenameTo(path) => RenameRead("rename to ", path, q);
    case CopyFrom(path) => RenameRead("copy from ", path, q);
    case CopyTo(path) => RenameRead("copy to ", path, q);
    case BinaryFiles(left, right) => BinaryRead(left, right, q);
    case BinaryPatch => PatchRead(q);
    case _ => SubmoduleRead(MetaText(m), q);
  }

  // ----- a block of them -----

  function MetaTexts(metas: seq<Meta>): seq<string> {
    seq(|metas|, i requires 0 <= i < |metas| => MetaText(metas[i]))
  }

  predicate GivenBy(metas: seq<Meta>, r: Reason) {
    exists i :: 0 <= i < |metas| && Gives(metas[i], r)
  }

  /** The last file is this one without text, with exactly the reasons given, each once. */
  ghost predicate OnlyMeta(c: Cursor, before: seq<FilePatch>, file: string, metas: seq<Meta>) {
    && WellPlaced(c) && c.diffFile == Some(file) && !c.inHunk
    && (forall r :: r in c.pending <==> GivenBy(metas, r))
    && (forall i, j :: 0 <= i < j < |c.pending| ==> c.pending[i] != c.pending[j])
    && if metas == [] then !c.current && c.files == before && c.pending == []
       else c.current && c.files == before + [FilePatch(file, [], [], Binary in c.pending, c.pending, [])]
  }

  lemma MarkedOnce(c: Cursor, before: seq<FilePatch>, file: string, r: Reason)
    requires WellPlaced(c) && file != "" && c.diffFile == Some(file) && !c.inHunk
    requires if c.current then c.files == before + [FilePatch(file, [], [], Binary in c.pending, c.pending, [])]
             else c.files == before && c.pending == []
    ensures var d := MarkOne(c, r);
      && d.current && d.diffFile == Some(file) && !d.inHunk && d.pending == Union(c.pending, r)
      && d.files == before + [FilePatch(file, [], [], Binary in d.pending, d.pending, [])]
  {
    var d := MarkOne(c, r);
    var started := before + [FilePatch(file, [], [], false, [], [])];
    if c.current {
      assert c.files[|c.files| - 1] == FilePatch(file, [], [], Binary in c.pending, c.pending, []);
    } else {
      assert started[|started| - 1] == FilePatch(file, [], [], false, [], []);
    }
  }

  lemma UnionOf(reasons: seq<Reason>, r: Reason)
    requires forall i, j :: 0 <= i < j < |reasons| ==> reasons[i] != reasons[j]
    ensures forall x :: x in Union(reasons, r) <==> x in reasons || x == r
    ensures forall i, j :: 0 <= i < j < |Union(reasons, r)| ==> Union(reasons, r)[i] != Union(reasons, r)[j]
  {
  }

  lemma GivenByOneMore(metas: seq<Meta>, m: Meta, r: Reason)
    ensures GivenBy(metas + [m], r) <==> GivenBy(metas, r) || Gives(m, r)
  {
    hide Gives;
    var all := metas + [m];
    if GivenBy(metas, r) {
      var i :| 0 <= i < |metas| && Gives(metas[i], r);
      assert all[i] == metas[i];
    }
    if Gives(m, r) {
      assert all[|metas|] == m;
    }
  }

  lemma OneMoreMeta(c: Cursor, before: seq<FilePatch>, file: string, metas: seq<Meta>, m: Meta, line: Line)
    requires OnlyMeta(c, before, file, metas) && file != "" && ReadsAs(line, m)
    ensures OnlyMeta(Step(c, line), before, file, metas + [m])
  {
    hide Gives, GivenBy, MarkOne, Union;
    var first := MarkOne(c, line.reasons[0]);
    MarkedOnce(c, before, file, line.reasons[0]);
    UnionOf(c.pending, line.reasons[0]);
    if |line.reasons| == 2 {
      MarkedOnce(first, before, file, line.reasons[1]);
      UnionOf(first.pending, line.reasons[1]);
    }
    forall r
      ensures r in Step(c, line).pending <==> GivenBy(metas + [m], r)
    {
      GivenByOneMore(metas, m, r);
      assert Gives(m, r) <==> r in line.reasons;
    }
  }

  lemma {:induction false} MetasRun(c: Cursor, before: seq<FilePatch>, file: string, metas: seq<Meta>, q: Quoting)
    requires OnlyMeta(c, before, file, []) && file != "" && forall i :: 0 <= i < |metas| ==> MetaOk(metas[i])
    ensures OnlyMeta(Run(c, MetaTexts(metas), q), before, file, metas)
    decreases |metas|
  {
    hide Classify, Step, OnlyMeta, ReadsAs, MetaOk, MetaText;
    OnlyMetaPlaced(c, before, file, []);
    if metas == [] {
      assert MetaTexts(metas) == [];
    } else {
      var init, m := metas[..|metas| - 1], metas[|metas| - 1];
      MetasRun(c, before, file, init, q);
      assert MetaTexts(metas) == MetaTexts(init) + [MetaText(m)];
      RunAppend(c, MetaTexts(init), [MetaText(m)], q);
      OnlyMetaPlaced(Run(c, MetaTexts(init), q), before, file, init);
      RunSingle(Run(c, MetaTexts(init), q), MetaText(m), q);
      MetaRead(m, q);
      OneMoreMeta(Run(c, MetaTexts(init), q), before, file, init, m, Classify(MetaText(m), q));
      assert init + [m] == metas;
    }
  }

  lemma OnlyMetaPlaced(c: Cursor, before: seq<FilePatch>, file: string, metas: seq<Meta>)
    requires OnlyMeta(c, before, file, metas)
    ensures WellPlaced(c)
  {
  }

  function MetaBlock(file: string, metas: seq<Meta>): seq<string> {
    ["diff --git a/" + file + " b/" + file] + MetaTexts(metas)
  }

  /**
   * A block that only has metadata gives its file, after the files before it, without any text and
   * with exactly the reasons of its lines; it is binary exactly if one of them says so.
   */
  lemma MetaBlockRead(c: Cursor, file: string, metas: seq<Meta>, q: Quoting)
    requires WellPlaced(c) && PlainPath(file) && metas != []
    requires forall i :: 0 <= i < |metas| ==> MetaOk(metas[i])
    ensures var files := Run(c, MetaBlock(file, metas), q).files;
      && |files| == |c.files| + 1 && files[..|c.files|] == c.files
      && var p := files[|c.files|];
         && p.file == file && p.addedLines == [] && p.removedLines == [] && p.hunks == []
         && (p.binary <==> GivenBy(metas, Binary)) && (forall r :: r in p.reasons <==> GivenBy(metas, r))
         && (forall i, j :: 0 <= i < j < |p.reasons| ==> p.reasons[i] != p.reasons[j])
  {
    hide Classify, PlainPath, GivenBy, MetaOk, Step;
    var d := BlockRun(c, file, metas, q);
  }

  lemma BlockRun(c: Cursor, file: string, metas: seq<Meta>, q: Quoting) returns (d: Cursor)
    requires WellPlaced(c) && PlainPath(file) && forall i :: 0 <= i < |metas| ==> MetaOk(metas[i])
    ensures d == Run(c, MetaBlock(file, metas), q) && OnlyMeta(d, c.files, file, metas)
  {
    hide Classify, PlainPath, MetaOk, MetaText;
    var header := "diff --git a/" + file + " b/" + file;
    RunAppend(c, [header], MetaTexts(metas), q);
    RunSingle(c, header, q);
    DiffHeaderRead(file, q);
    PathNotEmpty(file);
    NothingGiven();
    MetasRun(Step(c, DiffHeader(file)), c.files, file, metas, q);
    d := Run(c, MetaBlock(file, metas), q);
  }

  lemma NothingGiven()
    ensures forall r :: !GivenBy([], r)
  {
  }

  /** Path headers after the metadata open no second file, and the reasons stay. */
  lemma MetaHeadersRead(c: Cursor, file: string, metas: seq<Meta>, q: Quoting)
    requires WellPlaced(c) && PlainPath(file) && metas != []
    requires forall i :: 0 <= i < |metas| ==> MetaOk(metas[i])
    ensures var block := MetaBlock(file, metas);
      Run(c, block + ["--- a/" + file] + ["+++ b/" + file], q).files == Run(c, block, q).files
  {
    hide Classify, PlainPath, GivenBy, MetaOk, MetaBlock;
    var block, minus, plus := MetaBlock(file, metas), "--- a/" + file, "+++ b/" + file;
    var d := BlockRun(c, file, metas, q);
    RunAppend(c, block + [minus], [plus], q);
    RunAppend(c, block, [minus], q);
    RunSingle(d, minus, q);
    MinusHeaderRead(file, q);
    PlusHeaderRead(file, q);
    PathNotEmpty(file);
    var e := Step(d, MinusHeader(Some(file)));
    RunSingle(e, plus, q);
    assert Last(e) == d.files[|d.files| - 1];
  }
}
