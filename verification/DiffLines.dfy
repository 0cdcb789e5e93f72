/** The lines of a git patch: how one is recognised, and how a text is cut into them. */
module DiffLines {
  import opened Wrappers
  import opened ScalarTokenizer

  datatype Reason = Binary | Gitlink | RenameOrCopy | ModeChange

  datatype Line =
    | DiffHeader(file: string)
    | Mark(reasons: seq<Reason>)
    | PlusHeader(path: Option<string>)
    | MinusHeader(path: Option<string>)
    | HunkHeader(oldStart: nat, newStart: nat)
    | Body(raw: string)

  /**
   * Git's C-style quoting is not spelled out: what the regular expressions find in a quoted header,
   * and what decoding makes of a path that holds a backslash.
   */
  datatype Quoting = Quoting(diff: string -> Option<string>, header: string -> Option<string>, decode: string -> string)

  // ------------------------------------------------------------------------- small scanners

  function TokenLength(s: string): (n: nat)
    ensures n <= |s|
  {
    if s == "" || IsSpace(s[0]) then 0 else 1 + TokenLength(s[1..])
  }

  function SpaceLength(s: string): (n: nat)
    ensures n <= |s|
  {
    if s == "" || !IsSpace(s[0]) then 0 else 1 + SpaceLength(s[1..])
  }

  function DigitsLength(s: string): (n: nat)
    ensures n <= |s| && forall i :: 0 <= i < n ==> IsDigit(s[i])
  {
    if s == "" || !IsDigit(s[0]) then 0 else 1 + DigitsLength(s[1..])
  }

  function Number(s: string): nat
    requires forall i :: 0 <= i < |s| ==> IsDigit(s[i])
  {
    if s == "" then 0
    else
      assert IsDigit(s[|s| - 1]);
      10 * Number(s[..|s| - 1]) + (s[|s| - 1] as int - '0' as int)
  }

  predicate StartsWith(s: string, prefix: string) { prefix <= s }

  predicate EndsWith(s: string, suffix: string) {
    |suffix| <= |s| && s[|s| - |suffix|..] == suffix
  }

  predicate LineTerminator(c: char) {
    c == '\n' || c == '\r' || c == '\U{2028}' || c == '\U{2029}'
  }

  // ---------------------------------------------------------------------------------- paths

  function Slashed(s: string): string {
    if s == "" then "" else [if s[0] == '\\' then '/' else s[0]] + Slashed(s[1..])
  }

  function StripPrefix(path: string): string {
    Slashed(if StartsWith(path, "a/") || StartsWith(path, "b/") then path[2..] else path)
  }

  function Decoded(path: string, q: Quoting): string {
    if '\\' in path then q.decode(path) else path
  }

  function Named(file: string): Option<string> {
    if file == "" || file == "/dev/null" then None else Some(file)
  }

  /** The path after `+++` or `---`, if this is a header at all. */
  function PathHeader(s: string, q: Quoting): Option<Option<string>>
    requires |s| >= 3
  {
    var n := SpaceLength(s[3..]);
    var rest := s[3 + n..];
    if n == 0 || rest == "" then None
    else if rest[0] == '"' then
      match q.header(rest)
      case Some(path) => Some(Named(StripPrefix(path)))
      case None => None
    else if StartsWith(rest, "/dev/null") then Some(None)
    else if (StartsWith(rest, "a/") || StartsWith(rest, "b/")) && TokenLength(rest) > 2 then
      Some(Named(StripPrefix(Decoded(rest[..TokenLength(rest)], q))))
    else None
  }

  const DIFF := "diff --git "

  /** Both paths of a diff header, neither of them quoted. */
  predicate PlainDiff(rest: string) {
    var n := TokenLength(rest);
    && StartsWith(rest, "a/") && n > 2 && n < |rest| && rest[n] == ' '
    && StartsWith(rest[n + 1..], "b/") && |rest[n + 1..]| > 2 && TokenLength(rest[n + 1..]) == |rest[n + 1..]|
  }

  function DiffFile(s: string, q: Quoting): Option<string> {
    if !StartsWith(s, DIFF) then None
    else
      var rest := s[|DIFF|..];
      if PlainDiff(rest) then Some(StripPrefix(Decoded(rest[TokenLength(rest) + 1..], q)))
      else
        match q.diff(s)
        case Some(path) => Some(StripPrefix(path))
        case None => None
  }

  // ------------------------------------------------------------------------- other metadata

  predicate AllDigits(s: string) { DigitsLength(s) == |s| }

  function HexLength(s: string): (n: nat)
    ensures n <= |s|
  {
    if s == "" || !IsHex(s[0]) then 0 else 1 + HexLength(s[1..])
  }

  function Lower(s: string): string {
    if s == "" then ""
    else [if 'A' <= s[0] <= 'Z' then (s[0] as int + 32) as char else s[0]] + Lower(s[1..])
  }

  predicate ModeLine(s: string) {
    (StartsWith(s, "old mode ") || StartsWith(s, "new mode ")) && |s| == 15 && AllDigits(s[9..])
  }

  /** `index <hex>..<hex> 160000`, in either case. */
  predicate GitlinkIndex(s: string) {
    |s| >= 6 && Lower(s[..6]) == "index " &&
    var rest := s[6..];
    var n := HexLength(rest);
    n > 0 && StartsWith(rest[n..], "..") &&
    var tail := rest[n + 2..];
    HexLength(tail) > 0 && tail[HexLength(tail)..] == " 160000"
  }

  predicate RenameLine(s: string) {
    || StartsWith(s, "rename from ") || StartsWith(s, "rename to ")
    || StartsWith(s, "copy from ") || StartsWith(s, "copy to ")
  }

  predicate BinaryLine(s: string) {
    || s == "GIT binary patch"
    || (StartsWith(s, "Binary files ") && EndsWith(s, " differ") && |s| > 20
        && forall i :: 13 <= i < |s| - 7 ==> !LineTerminator(s[i]))
  }

  /** An optional `,<count>`. */
  function CountLength(s: string): (n: nat)
    ensures n <= |s|
  {
    if s != "" && s[0] == ',' && DigitsLength(s[1..]) > 0 then 1 + DigitsLength(s[1..]) else 0
  }

  /** What follows a number and its optional count. */
  function PastNumber(s: string): string {
    var rest := s[DigitsLength(s)..];
    rest[CountLength(rest)..]
  }

  function Leading(s: string): nat { Number(s[..DigitsLength(s)]) }

  predicate HunkEnd(s: string) {
    StartsWith(s, " @@") && (s == " @@" || (s[3] == ' ' && forall i :: 4 <= i < |s| ==> !LineTerminator(s[i])))
  }

  /** `@@ -<old>[,<n>] +<new>[,<n>] @@[ <anything>]` */
  function ReadHunk(s: string): Option<(nat, nat)> {
    if !StartsWith(s, "@@ -") then None
    else
      var before := s[4..];
      var middle := PastNumber(before);
      if DigitsLength(before) == 0 || !StartsWith(middle, " +") then None
      else
        var after := middle[2..];
        if DigitsLength(after) > 0 && HunkEnd(PastNumber(after)) then Some((Leading(before), Leading(after))) else None
  }

  /** The tests of the line loop, in their order. */
  function Classify(s: string, q: Quoting): Line {
    if DiffFile(s, q).Some? then DiffHeader(DiffFile(s, q).value)
    else if ModeLine(s) then Mark(if EndsWith(s, " 160000") then [ModeChange, Gitlink] else [ModeChange])
    else if s == "new file mode 160000" || s == "deleted file mode 160000" || GitlinkIndex(s) then Mark([Gitlink])
    else if RenameLine(s) then Mark([RenameOrCopy])
    else if StartsWith(s, "+++") && PathHeader(s, q).Some? then PlusHeader(PathHeader(s, q).value)
    else if StartsWith(s, "---") && PathHeader(s, q).Some? then MinusHeader(PathHeader(s, q).value)
    else if BinaryLine(s) then Mark([Binary])
    else if ReadHunk(s).Some? then HunkHeader(ReadHunk(s).value.0, ReadHunk(s).value.1)
    else Body(s)
  }

  // ------------------------------------------------------------------------- text and lines

  /** Cut at every line feed, a carriage return right before it included. */
  function SplitLines(text: string): (lines: seq<string>)
    ensures lines != []
  {
    if text == "" then [""]
    else if text[0] == '\n' then [""] + SplitLines(text[1..])
    else if |text| > 1 && text[0] == '\r' && text[1] == '\n' then [""] + SplitLines(text[2..])
    else
      var rest := SplitLines(text[1..]);
      [[text[0]] + rest[0]] + rest[1..]
  }

  function JoinLines(lines: seq<string>): string {
    if lines == [] then "" else if |lines| == 1 then lines[0] else lines[0] + "\n" + JoinLines(lines[1..])
  }

  predicate Unbroken(line: string) {
    forall i :: 0 <= i < |line| ==> line[i] != '\n' && line[i] != '\r'
  }

  lemma {:induction false} SplitFirst(line: string, rest: string)
    requires Unbroken(line)
    ensures SplitLines(line + "\n" + rest) == [line] + SplitLines(rest)
  {
    var text := line + "\n" + rest;
    if line == "" {
      assert text == "\n" + rest && text[1..] == rest;
    } else {
      assert text[0] == line[0] && text[1..] == line[1..] + "\n" + rest;
      SplitFirst(line[1..], rest);
      var tail := SplitLines(text[1..]);
      assert tail[0] == line[1..] && tail[1..] == SplitLines(rest);
      assert [line[0]] + line[1..] == line;
    }
  }

  lemma {:induction false} SplitOnly(line: string)
    requires Unbroken(line)
    ensures SplitLines(line) == [line]
  {
    if line != "" {
      SplitOnly(line[1..]);
      assert [line[0]] + line[1..] == line;
    }
  }

  lemma {:induction false} SplitJoin(lines: seq<string>)
    requires lines != [] && forall i :: 0 <= i < |lines| ==> Unbroken(lines[i])
    ensures SplitLines(JoinLines(lines)) == lines
  {
    if |lines| == 1 {
      SplitOnly(lines[0]);
    } else {
      SplitFirst(lines[0], JoinLines(lines[1..]));
      SplitJoin(lines[1..]);
    }
  }
}
