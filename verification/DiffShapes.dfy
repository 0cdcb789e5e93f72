/** Exactly which lines are read as hunk headers, binary markers and submodule indexes, and where lines end. */
module DiffShapes {
  import opened Wrappers
  import opened ScalarTokenizer
  import opened DiffLines

  predicate AllOf(s: string) {
    forall i :: 0 <= i < |s| ==> '0' <= s[i] <= '9'
  }

  /** Nothing, or a comma and digits. */
  predicate CountText(c: string) {
    c == "" || (|c| > 1 && c[0] == ',' && AllOf(c[1..]))
  }

  /** Nothing, or a space and a heading on the same line. */
  predicate HeadingText(tail: string) {
    tail == "" || (tail[0] == ' ' && forall i :: 1 <= i < |tail| ==> tail[i] !in {'\n', '\r', '\U{2028}', '\U{2029}'})
  }

  /** A hunk header, part by part. */
  datatype Header = Header(before: string, beforeCount: string, after: string, afterCount: string, heading: string)

  predicate HeaderOk(h: Header) {
    && h.before != "" && AllOf(h.before) && CountText(h.beforeCount)
    && h.after != "" && AllOf(h.after) && CountText(h.afterCount) && HeadingText(h.heading)
  }

  function HeaderText(h: Header): string {
    "@@ -" + (h.before + (h.beforeCount + (" +" + (h.after + (h.afterCount + (" @@" + h.heading))))))
  }

  lemma {:induction false} DigitsEnd(d: string, rest: string)
    requires AllOf(d) && (rest == "" || !('0' <= rest[0] <= '9'))
    ensures DigitsLength(d + rest) == |d|
    decreases |d|
  {
    if d == "" {
      assert d + rest == rest;
    } else {
      assert (d + rest)[1..] == d[1..] + rest;
      DigitsEnd(d[1..], rest);
    }
  }

  /** Past a number and its count stands what follows them. */
  lemma NumberEnds(d: string, count: string, rest: string)
    requires d != "" && AllOf(d) && CountText(count) && rest != "" && rest[0] == ' '
    ensures DigitsLength(d + (count + rest)) == |d| && PastNumber(d + (count + rest)) == rest
  {
    hide DigitsLength;
    var tail := count + rest;
    DigitsEnd(d, tail);
    assert (d + tail)[|d|..] == tail;
    if count == "" {
      assert tail == rest;
    } else {
      assert tail[1..] == count[1..] + rest;
      DigitsEnd(count[1..], rest);
      assert tail[|count|..] == rest;
    }
  }

  lemma LeadingIs(d: string, rest: string)
    requires DigitsLength(d + rest) == |d| && AllOf(d)
    ensures Leading(d + rest) == Number(d)
  {
    assert (d + rest)[..|d|] == d;
  }

  lemma Prefixes(prefix: string, rest: string)
    ensures StartsWith(prefix + rest, prefix) && (prefix + rest)[|prefix|..] == rest
  {
  }

  lemma HeadingEnds(heading: string)
    requires HeadingText(heading)
    ensures HunkEnd(" @@" + heading)
  {
    var s := " @@" + heading;
    assert heading == "" ==> s == " @@";
    assert forall i :: 4 <= i < |s| ==> s[i] == heading[i - 3];
  }

  /** Every hunk header is read, with or without counts and heading. */
  lemma HeaderReads(h: Header)
    requires HeaderOk(h)
    ensures ReadHunk(HeaderText(h)) == Some((Number(h.before), Number(h.after)))
  {
    hide DigitsLength, PastNumber, HunkEnd, Leading, CountText, HeadingText;
    var end := " @@" + h.heading;
    var after := h.after + (h.afterCount + end);
    var middle := " +" + after;
    var before := h.before + (h.beforeCount + middle);
    HeadingEnds(h.heading);
    NumberEnds(h.after, h.afterCount, end);
    NumberEnds(h.before, h.beforeCount, middle);
    LeadingIs(h.after, h.afterCount + end);
    LeadingIs(h.before, h.beforeCount + middle);
    Prefixes(" +", after);
    Prefixes("@@ -", before);
  }

  lemma DigitsAre(s: string)
    ensures AllOf(s[..DigitsLength(s)])
  {
  }

  lemma CountIs(s: string)
    ensures CountText(s[..CountLength(s)])
  {
    if CountLength(s) > 0 {
      DigitsAre(s[1..]);
      assert s[..CountLength(s)][1..] == s[1..][..DigitsLength(s[1..])];
    }
  }

  lemma NumberParts(s: string) returns (d: string, count: string)
    ensures d == s[..DigitsLength(s)] && AllOf(d) && CountText(count) && s == d + (count + PastNumber(s))
    ensures Leading(s) == Number(d)
  {
    hide CountText, CountLength;
    d := s[..DigitsLength(s)];
    DigitsAre(s);
    var rest := s[DigitsLength(s)..];
    count := rest[..CountLength(rest)];
    CountIs(rest);
    assert rest == count + PastNumber(s) && s == d + rest;
  }

  lemma HunkEndIs(s: string)
    requires HunkEnd(s)
    ensures s == " @@" + s[3..] && HeadingText(s[3..])
  {
    assert forall i :: 1 <= i < |s[3..]| ==> s[3..][i] == s[i + 3];
  }

  /** A line is read as a hunk header exactly when it is one, and gives its two start lines. */
  lemma HunkIff(s: string, oldStart: nat, newStart: nat)
    ensures ReadHunk(s) == Some((oldStart, newStart)) <==>
            exists h :: HeaderOk(h) && HeaderText(h) == s && Number(h.before) == oldStart && Number(h.after) == newStart
  {
    hide ReadHunk, HeaderText, Number, CountText, HeadingText;
    if h :| HeaderOk(h) && HeaderText(h) == s && Number(h.before) == oldStart && Number(h.after) == newStart {
      HeaderReads(h);
    }
    if ReadHunk(s) == Some((oldStart, newStart)) {
      var h := HeaderOf(s, oldStart, newStart);
    }
  }

  lemma HeaderOf(s: string, oldStart: nat, newStart: nat) returns (h: Header)
    requires ReadHunk(s) == Some((oldStart, newStart))
    ensures HeaderOk(h) && HeaderText(h) == s && Number(h.before) == oldStart && Number(h.after) == newStart
  {
    hide DigitsLength, PastNumber, HunkEnd, Leading, CountText, HeadingText, Number;
    var before := s[4..];
    var middle := PastNumber(before);
    var after := middle[2..];
    var end := PastNumber(after);
    var d, dc := NumberParts(before);
    var e, ec := NumberParts(after);
    HunkEndIs(end);
    h := Header(d, dc, e, ec, end[3..]);
    assert s == "@@ -" + before && middle == " +" + after;
  }

  // ----- markers -----

  /** Some text on one line. */
  predicate OneLine(names: string) {
    names != "" && forall i :: 0 <= i < |names| ==> names[i] !in {'\n', '\r', '\U{2028}', '\U{2029}'}
  }

  predicate BinaryParts(s: string, names: string) {
    OneLine(names) && s == "Binary files " + (names + " differ")
  }

  lemma BinaryReads(s: string, names: string)
    requires BinaryParts(s, names)
    ensures BinaryLine(s)
  {
    var prefix, suffix := "Binary files ", " differ";
    assert StartsWith(s, prefix) && s[|s| - |suffix|..] == suffix;
    forall i | 13 <= i < |s| - 7
      ensures !LineTerminator(s[i])
    {
      assert s[i] == names[i - 13];
    }
  }

  lemma BinaryHas(s: string) returns (names: string)
    requires BinaryLine(s) && s != "GIT binary patch"
    ensures BinaryParts(s, names)
  {
    var prefix, suffix := "Binary files ", " differ";
    names := s[13..|s| - 7];
    assert s == s[..13] + (names + s[|s| - 7..]);
    assert s[..|prefix|] == prefix && s[|s| - |suffix|..] == suffix;
    assert forall i :: 0 <= i < |names| ==> names[i] == s[i + 13];
  }

  /** A binary marker between two names, or the start of a binary patch. */
  lemma BinaryIff(s: string)
    ensures BinaryLine(s) <==> s == "GIT binary patch" || exists names :: BinaryParts(s, names)
  {
    hide BinaryParts;
    if BinaryLine(s) && s != "GIT binary patch" {
      var names := BinaryHas(s);
    }
    if names :| BinaryParts(s, names) {
      BinaryReads(s, names);
    }
  }

  predicate HexDigits(s: string) {
    s != "" && forall i :: 0 <= i < |s| ==> IsHex(s[i])
  }

  lemma {:induction false} HexEnds(s: string, rest: string)
    requires (forall i :: 0 <= i < |s| ==> IsHex(s[i])) && (rest == "" || !IsHex(rest[0]))
    ensures HexLength(s + rest) == |s|
    decreases |s|
  {
    if s == "" {
      assert s + rest == rest;
    } else {
      assert (s + rest)[1..] == s[1..] + rest;
      HexEnds(s[1..], rest);
    }
  }

  lemma {:induction false} HexAre(s: string)
    ensures forall i :: 0 <= i < HexLength(s) ==> IsHex(s[i])
    decreases |s|
  {
    if s != "" && IsHex(s[0]) {
      HexAre(s[1..]);
      assert forall i :: 0 < i < HexLength(s) ==> s[i] == s[1..][i - 1];
    }
  }

  /** A submodule index: the word, in either case, two hexadecimal names, and the submodule mode. */
  predicate SubmoduleParts(s: string, word: string, before: string, after: string) {
    && Lower(word) == "index " && |word| == 6 && HexDigits(before) && HexDigits(after)
    && s == word + (before + (".." + (after + " 160000")))
  }

  lemma SubmoduleIff(s: string)
    ensures GitlinkIndex(s) <==> exists word, before, after :: SubmoduleParts(s, word, before, after)
  {
    hide HexLength, Lower;
    if word, before, after :| SubmoduleParts(s, word, before, after) {
      var tail := after + " 160000";
      var rest := before + (".." + tail);
      assert s[..6] == word && s[6..] == rest;
      HexEnds(before, ".." + tail);
      assert rest[|before|..] == ".." + tail && rest[|before| + 2..] == tail;
      HexEnds(after, " 160000");
      assert tail[|after|..] == " 160000";
    }
    if GitlinkIndex(s) {
      var rest := s[6..];
      var n := HexLength(rest);
      var tail := rest[n + 2..];
      HexAre(rest);
      HexAre(tail);
      assert rest == rest[..n] + (".." + tail);
      assert tail == tail[..HexLength(tail)] + " 160000";
      assert SubmoduleParts(s, s[..6], rest[..n], tail[..HexLength(tail)]);
    }
  }

  // ----- line ends -----

  /** Lines joined with carriage returns and line feeds. */
  function JoinReturns(lines: seq<string>): string {
    if lines == [] then "" else if |lines| == 1 then lines[0] else lines[0] + ("\r\n" + JoinReturns(lines[1..]))
  }

  lemma {:induction false} SplitReturn(line: string, rest: string)
    requires Unbroken(line)
    ensures SplitLines(line + ("\r\n" + rest)) == [line] + SplitLines(rest)
    decreases |line|
  {
    var text := line + ("\r\n" + rest);
    if line == "" {
      assert text == "\r\n" + rest && text[0] == '\r' && text[1] == '\n' && text[2..] == rest;
    } else {
      assert text[0] == line[0] && text[1..] == line[1..] + ("\r\n" + rest);
      SplitReturn(line[1..], rest);
      var tail := SplitLines(text[1..]);
      assert tail[0] == line[1..] && tail[1..] == SplitLines(rest);
      assert [line[0]] + line[1..] == line;
    }
  }

  /** A carriage return before the line feed is no part of the line. */
  lemma {:induction false} SplitJoinReturns(lines: seq<string>)
    requires lines != [] && forall i :: 0 <= i < |lines| ==> Unbroken(lines[i])
    ensures SplitLines(JoinReturns(lines)) == lines
    decreases |lines|
  {
    if |lines| == 1 {
      SplitOnly(lines[0]);
    } else {
      SplitReturn(lines[0], JoinReturns(lines[1..]));
      SplitJoinReturns(lines[1..]);
    }
  }
}
