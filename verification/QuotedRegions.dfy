/** Quoted and template regions of a line of code, and the removal of those that are inert. */
module QuotedRegions {

  datatype Quote = NoQuote | Single(mark: char) | Triple(mark: char)

  /** `start` includes the prefix letters, `end` is past the closing delimiter. */
  datatype Region = Region(start: nat, end: nat, content: string, interpolating: bool)

  datatype Inspection = Inspection(regions: seq<Region>, unbalanced: bool)

  predicate IsLetter(c: char) {
    'A' <= c <= 'Z' || 'a' <= c <= 'z'
  }

  predicate IsQuote(c: char) {
    c == '\'' || c == '"' || c == '`'
  }

  /** Where the letters directly before `quoteIndex` begin. */
  function PrefixStart(value: string, quoteIndex: nat): (start: nat)
    requires quoteIndex <= |value|
    ensures start <= quoteIndex
    ensures forall k :: start <= k < quoteIndex ==> IsLetter(value[k])
    ensures start > 0 ==> !IsLetter(value[start - 1])
  {
    if quoteIndex > 0 && IsLetter(value[quoteIndex - 1]) then PrefixStart(value, quoteIndex - 1) else quoteIndex
  }

  predicate TripleAt(value: string, index: nat, mark: char) {
    index + 2 < |value| && value[index] == mark && value[index + 1] == mark && value[index + 2] == mark
  }

  /** Expansion-capable: a template, an `f` prefix, or an expansion marker in the content. */
  predicate Interpolates(mark: char, prefix: string, content: string) {
    || mark == '`'
    || (exists k :: 0 <= k < |prefix| && prefix[k] in {'f', 'F'})
    || (exists k :: 0 <= k < |content| && content[k] in {'%', '$', '{'})
  }

  /** The variables of the scanning loop. */
  datatype Scan = Scan(
    quote: Quote,
    quoteStart: nat,
    regionStart: nat,
    prefix: string,
    escaped: bool,
    regions: seq<Region>)

  const START := Scan(NoQuote, 0, 0, "", false, [])

  function Close(value: string, st: Scan, index: nat, width: nat): Scan
    requires st.quote != NoQuote && st.quoteStart <= index <= |value|
  {
    var content := value[st.quoteStart..index];
    st.(quote := NoQuote,
        regions := st.regions +
            [Region(st.regionStart, index + width, content, Interpolates(st.quote.mark, st.prefix, content))])
  }

  /** One turn of the loop: the next index and the next state. */
  function Step(value: string, index: nat, st: Scan): (next: (nat, Scan))
    requires index < |value| && (st.quote != NoQuote ==> st.quoteStart <= index)
    ensures index < next.0 <= |value|
    ensures next.1.quote != NoQuote ==> next.1.quoteStart <= next.0
  {
    var c := value[index];
    match st.quote
    case Single(mark) =>
      if st.escaped then (index + 1, st.(escaped := false))
      else if c == '\\' then (index + 1, st.(escaped := true))
      else if c == mark then (index + 1, Close(value, st, index, 1))
      else (index + 1, st)
    case Triple(mark) =>
      if TripleAt(value, index, mark) then (index + 3, Close(value, st, index, 3)) else (index + 1, st)
    case NoQuote =>
      if c == '`' then
        (index + 1, st.(quote := Single('`'), prefix := value[PrefixStart(value, index)..index],
                        regionStart := index, quoteStart := index + 1))
      else if c == '\'' || c == '"' then
        var start := PrefixStart(value, index);
        var entered := st.(prefix := value[start..index], regionStart := start);
        if TripleAt(value, index, c) then (index + 3, entered.(quote := Triple(c), quoteStart := index + 3))
        else (index + 1, entered.(quote := Single(c), quoteStart := index + 1))
      else (index + 1, st)
  }

  function ScanFrom(value: string, index: nat, st: Scan): Scan
    requires index <= |value| && (st.quote != NoQuote ==> st.quoteStart <= index)
    decreases |value| - index
  {
    if index == |value| then st
    else
      var (next, st') := Step(value, index, st);
      ScanFrom(value, next, st')
  }

  function Inspect(value: string): Inspection {
    var st := ScanFrom(value, 0, START);
    Inspection(st.regions, st.quote != NoQuote)
  }

  method InspectQuotedRegions(value: string) returns (inspection: Inspection)
    ensures inspection == Inspect(value)
  {
    var regions: seq<Region> := [];
    var quote := NoQuote;
    var quoteStart: nat, regionStart: nat := 0, 0;
    var prefix, escaped := "", false;
    var index := 0;
    while index < |value|
      invariant 0 <= index <= |value| && (quote != NoQuote ==> quoteStart <= index)
      invariant ScanFrom(value, 0, START) ==
                ScanFrom(value, index, Scan(quote, quoteStart, regionStart, prefix, escaped, regions))
    {
      var character := value[index];
      if quote.Single? {
        if escaped {
          escaped := false;
        } else if character == '\\' {
          escaped := true;
        } else if character == quote.mark {
          var content := value[quoteStart..index];
          regions := regions + [Region(regionStart, index + 1, content, Interpolates(quote.mark, prefix, content))];
          quote := NoQuote;
        }
      } else if quote.Triple? {
        if TripleAt(value, index, quote.mark) {
          var content := value[quoteStart..index];
          regions := regions + [Region(regionStart, index + 3, content, Interpolates(quote.mark, prefix, content))];
          quote := NoQuote;
          index := index + 2;
        }
      } else if character == '`' {
        quote := Single('`');
        prefix := value[PrefixStart(value, index)..index];
        regionStart := index;
        quoteStart := index + 1;
      } else if character == '\'' || character == '"' {
        prefix := value[PrefixStart(value, index)..index];
        regionStart := index - |prefix|;
        if TripleAt(value, index, character) {
          quote := Triple(character);
          quoteStart := index + 3;
          index := index + 2;
        } else {
          quote := Single(character);
          quoteStart := index + 1;
        }
      }
      index := index + 1;
    }
    inspection := Inspection(regions, quote != NoQuote);
  }

  // ----- shape of the regions -----

  /** `region` spans prefix letters, an opening delimiter, its content and the closing delimiter. */
  ghost predicate Delimited(value: string, region: Region) {
    exists prefix: nat, width: nat, mark: char {:trigger DelimitedBy(value, region, prefix, width, mark)} ::
      DelimitedBy(value, region, prefix, width, mark)
  }

  ghost predicate DelimitedBy(value: string, region: Region, prefix: nat, width: nat, mark: char) {
    && IsQuote(mark) && (width == 1 || (width == 3 && mark != '`'))
    && region.start + prefix + width + width <= region.end <= |value|
    && (mark == '`' ==> prefix == 0)
    && (forall k :: region.start <= k < region.start + prefix ==> IsLetter(value[k]))
    && (forall k :: region.start + prefix <= k < region.start + prefix + width ==> value[k] == mark)
    && (forall k :: region.end - width <= k < region.end ==> value[k] == mark)
    && region.content == value[region.start + prefix + width..region.end - width]
    && (mark != '`' && region.start > 0 ==> !IsLetter(value[region.start - 1]))
    && (mark != '`' ==>
       region.interpolating == Interpolates(mark, value[region.start..region.start + prefix], region.content))
    && (mark == '`' ==> region.interpolating)
  }

  ghost predicate Ordered(value: string, regions: seq<Region>, limit: nat) {
    && (forall i :: 0 <= i < |regions| ==> Delimited(value, regions[i]) && regions[i].start < regions[i].end <= limit)
    && (forall i, j :: 0 <= i < j < |regions| ==> regions[i].end <= regions[j].start)
  }

  predicate InSome(regions: seq<Region>, k: nat) {
    exists i :: 0 <= i < |regions| && regions[i].start <= k < regions[i].end
  }

  /** What holds of the loop's variables before it looks at `index`. */
  ghost predicate ScanInv(value: string, index: nat, st: Scan) {
    var limit := if st.quote == NoQuote then index else st.regionStart;
    && index <= |value|
    && limit <= index
    && Ordered(value, st.regions, limit)
    && (forall k :: 0 <= k < limit && !InSome(st.regions, k) ==> !IsQuote(value[k]))
    && (st.quote != NoQuote ==> Opened(value, index, st))
  }

  ghost predicate Opened(value: string, index: nat, st: Scan)
    requires st.quote != NoQuote && index <= |value|
  {
    var mark := st.quote.mark;
    var width := if st.quote.Single? then 1 else 3;
    && IsQuote(mark) && (mark == '`' ==> st.quote.Single?)
    && st.regionStart + width <= st.quoteStart <= index
    && (mark == '`' ==> st.regionStart + width == st.quoteStart)
    && (forall k :: st.regionStart <= k < st.quoteStart - width ==> IsLetter(value[k]))
    && (forall k :: st.quoteStart - width <= k < st.quoteStart ==> value[k] == mark)
    && (mark != '`' ==> st.prefix == value[st.regionStart..st.quoteStart - width])
    && (mark != '`' && st.regionStart > 0 ==> !IsLetter(value[st.regionStart - 1]))
  }

  lemma ClosedRegion(value: string, index: nat, st: Scan, width: nat)
    requires ScanInv(value, index, st) && st.quote != NoQuote
    requires width == (if st.quote.Single? then 1 else 3) && index + width <= |value|
    requires forall k :: index <= k < index + width ==> value[k] == st.quote.mark
    ensures var region := Close(value, st, index, width).regions[|st.regions|];
      Delimited(value, region) && st.regionStart == region.start < region.end == index + width
  {
    hide Ordered, Delimited, InSome;
    var region := Close(value, st, index, width).regions[|st.regions|];
    var prefix := st.quoteStart - width - st.regionStart;
    assert DelimitedBy(value, region, prefix, width, st.quote.mark);
    DelimitedIntro(value, region, prefix, width, st.quote.mark);
  }

  lemma DelimitedIntro(value: string, region: Region, prefix: nat, width: nat, mark: char)
    requires DelimitedBy(value, region, prefix, width, mark)
    ensures Delimited(value, region)
  {
  }

  lemma InSomeAppend(regions: seq<Region>, region: Region, k: nat)
    ensures InSome(regions + [region], k) <==> InSome(regions, k) || region.start <= k < region.end
  {
    var all := regions + [region];
    if InSome(regions, k) {
      var i :| 0 <= i < |regions| && regions[i].start <= k < regions[i].end;
      assert all[i] == regions[i];
    }
    if region.start <= k < region.end {
      assert all[|regions|] == region;
    }
  }

  lemma CloseKeepsInv(value: string, index: nat, st: Scan, width: nat)
    requires ScanInv(value, index, st) && st.quote != NoQuote
    requires width == (if st.quote.Single? then 1 else 3) && index + width <= |value|
    requires forall k :: index <= k < index + width ==> value[k] == st.quote.mark
    ensures ScanInv(value, index + width, Close(value, st, index, width))
  {
    hide Delimited, InSome, Interpolates;
    ClosedRegion(value, index, st, width);
    var t := Close(value, st, index, width);
    var region := t.regions[|st.regions|];
    forall k | 0 <= k < index + width && !InSome(t.regions, k)
      ensures !IsQuote(value[k])
    {
      InSomeAppend(st.regions, region, k);
    }
  }

  lemma RegionEndsInQuote(value: string, region: Region)
    requires Delimited(value, region)
    ensures 0 < region.end <= |value| && !IsLetter(value[region.end - 1])
  {
  }

  /** The prefix letters of a new region never reach back into an earlier one. */
  lemma PrefixClear(value: string, index: nat, st: Scan)
    requires ScanInv(value, index, st) && st.quote == NoQuote && index < |value|
    ensures Ordered(value, st.regions, PrefixStart(value, index))
  {
    hide Delimited, InSome, IsLetter;
    var start := PrefixStart(value, index);
    forall i | 0 <= i < |st.regions|
      ensures st.regions[i].end <= start
    {
      RegionEndsInQuote(value, st.regions[i]);
    }
  }

  lemma OpenKeepsInv(value: string, index: nat, st: Scan)
    requires ScanInv(value, index, st) && st.quote == NoQuote && index < |value|
    ensures var next := Step(value, index, st); ScanInv(value, next.0, next.1)
  {
    hide Delimited, InSome;
    PrefixClear(value, index, st);
    hide Ordered;
  }

  lemma StepKeepsInv(value: string, index: nat, st: Scan)
    requires ScanInv(value, index, st) && index < |value|
    ensures var next := Step(value, index, st); ScanInv(value, next.0, next.1)
  {
    hide Delimited, InSome, Ordered, Close, PrefixStart;
    match st.quote
    case Single(mark) =>
      if !st.escaped && value[index] != '\\' && value[index] == mark {
        CloseKeepsInv(value, index, st, 1);
      }
    case Triple(mark) =>
      if TripleAt(value, index, mark) {
        CloseKeepsInv(value, index, st, 3);
      }
    case NoQuote =>
      OpenKeepsInv(value, index, st);
  }

  lemma {:induction false} ScanKeepsInv(value: string, index: nat, st: Scan)
    requires ScanInv(value, index, st)
    ensures ScanInv(value, |value|, ScanFrom(value, index, st))
    decreases |value| - index
  {
    if index < |value| {
      StepKeepsInv(value, index, st);
      var next := Step(value, index, st);
      ScanKeepsInv(value, next.0, next.1);
    }
  }

  /**
   * The regions are delimited strings in order of position, none overlaps another, and in balanced
   * text every quote character lies inside one of them.
   */
  lemma RegionsOrderedAndComplete(value: string)
    ensures Ordered(value, Inspect(value).regions, |value|)
    ensures !Inspect(value).unbalanced ==>
      forall k :: 0 <= k < |value| && IsQuote(value[k]) ==> InSome(Inspect(value).regions, k)
  {
    ScanKeepsInv(value, 0, START);
  }

  // ----- stripping -----

  predicate InPlain(regions: seq<Region>, k: nat) {
    exists i :: 0 <= i < |regions| && regions[i].start <= k < regions[i].end && !regions[i].interpolating
  }

  /** The characters before `hi` that are not inside a plain region, in order. */
  function KeepUpTo(value: string, regions: seq<Region>, hi: nat): string
    requires hi <= |value|
  {
    if hi == 0 then ""
    else
      var before := KeepUpTo(value, regions, hi - 1);
      if InPlain(regions, hi - 1) then before else before + [value[hi - 1]]
  }

  lemma {:induction false} KeepAll(value: string, regions: seq<Region>, lo: nat, hi: nat)
    requires lo <= hi <= |value| && forall k :: lo <= k < hi ==> !InPlain(regions, k)
    ensures KeepUpTo(value, regions, hi) == KeepUpTo(value, regions, lo) + value[lo..hi]
    decreases hi - lo
  {
    hide InPlain;
    if lo < hi {
      KeepAll(value, regions, lo, hi - 1);
      assert value[lo..hi] == value[lo..hi - 1] + [value[hi - 1]];
    }
  }

  lemma {:induction false} KeepNone(value: string, regions: seq<Region>, lo: nat, hi: nat)
    requires lo <= hi <= |value| && forall k :: lo <= k < hi ==> InPlain(regions, k)
    ensures KeepUpTo(value, regions, hi) == KeepUpTo(value, regions, lo)
    decreases hi - lo
  {
    hide InPlain;
    if lo < hi {
      KeepNone(value, regions, lo, hi - 1);
    }
  }

  /** Up to the next region nothing is plain; inside it everything is, or nothing. */
  lemma RegionStep(value: string, regions: seq<Region>, i: nat, cursor: nat)
    requires Ordered(value, regions, |value|) && i < |regions| && cursor == (if i == 0 then 0 else regions[i - 1].end)
    ensures cursor <= regions[i].start < regions[i].end <= |value|
    ensures forall k :: cursor <= k < regions[i].start ==> !InPlain(regions, k)
    ensures forall k :: regions[i].start <= k < regions[i].end ==> (InPlain(regions, k) <==> !regions[i].interpolating)
  {
    hide Delimited;
    forall j | 0 <= j < |regions| && j != i
      ensures regions[j].end <= cursor || regions[i].end <= regions[j].start
    {
      if j < i {
        assert regions[j].end <= regions[i - 1].end;
      }
    }
  }

  lemma LastStep(value: string, regions: seq<Region>, cursor: nat)
    requires Ordered(value, regions, |value|) && cursor == (if regions == [] then 0 else regions[|regions| - 1].end)
    ensures cursor <= |value| && forall k :: cursor <= k < |value| ==> !InPlain(regions, k)
  {
    hide Delimited;
    forall j | 0 <= j < |regions|
      ensures regions[j].end <= cursor
    {
      assert j < |regions| - 1 ==> regions[j].end <= regions[|regions| - 1].start;
    }
  }

  /** Exactly the characters of the plain regions go; unbalanced text is left as it is. */
  method StripProvenPlainQuotedRegions(value: string) returns (stripped: string)
    ensures stripped == if Inspect(value).unbalanced then value else KeepUpTo(value, Inspect(value).regions, |value|)
  {
    hide Inspect, Ordered, InPlain, InSome;
    var inspection := InspectQuotedRegions(value);
    if inspection.unbalanced {
      return value;
    }
    RegionsOrderedAndComplete(value);
    var regions := inspection.regions;
    stripped := "";
    var cursor := 0;
    for i := 0 to |regions|
      invariant cursor == (if i == 0 then 0 else regions[i - 1].end) && cursor <= |value|
      invariant stripped == KeepUpTo(value, regions, cursor)
    {
      var region := regions[i];
      RegionStep(value, regions, i, cursor);
      KeepAll(value, regions, cursor, region.start);
      stripped := stripped + value[cursor..region.start];
      if region.interpolating {
        KeepAll(value, regions, region.start, region.end);
        stripped := stripped + value[region.start..region.end];
      } else {
        KeepNone(value, regions, region.start, region.end);
      }
      cursor := region.end;
    }
    LastStep(value, regions, cursor);
    KeepAll(value, regions, cursor, |value|);
    stripped := stripped + value[cursor..];
  }
}
