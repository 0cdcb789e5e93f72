/** The numbers the tokenizer reads are the numeric literals of the language, each read to its end. */
module ScalarNumbers {
  import opened ScalarTokenizer
  import opened ScalarLayout

  const DIGITS: set<char> := {'0', '1', '2', '3', '4', '5', '6', '7', '8', '9'}

  const HEX_DIGITS: set<char> := {
    '0', '1', '2', '3', '4', '5', '6', '7', '8', '9',
    'a', 'b', 'c', 'd', 'e', 'f', 'A', 'B', 'C', 'D', 'E', 'F'
  }

  /** A numeric literal: with a radix prefix, or decimal; `big` is its suffix. */
  datatype Numeral =
    | Radix(letter: char, digits: string, big: string)
    | Decimal(whole: string, fraction: string, exponent: string, big: string)

  /** Digits in groups: an underscore stands only between two of them. */
  predicate Grouped(d: string, of: set<char>) {
    d != "" && d[0] in of && Groups(d, of)
  }

  predicate Groups(d: string, of: set<char>) {
    && (forall i :: 0 <= i < |d| ==> d[i] in of || d[i] == '_')
    && (forall i :: 0 <= i < |d| - 1 && d[i] == '_' ==> d[i + 1] in of)
    && (d != "" ==> d[|d| - 1] in of)
  }

  predicate PlainDigits(d: string) {
    d != "" && forall i :: 0 <= i < |d| ==> d[i] in DIGITS
  }

  /** No exponent, or the letter, perhaps a sign, and digits. */
  predicate Exponent(e: string) {
    || e == ""
    || (|e| >= 2 && e[0] in {'e', 'E'} && PlainDigits(e[1..]))
    || (|e| >= 3 && e[0] in {'e', 'E'} && e[1] in {'+', '-'} && PlainDigits(e[2..]))
  }

  predicate NumeralOk(n: Numeral) {
    && n.big in {"", "n", "N"}
    && match n
       case Radix(letter, digits, _) => letter in {'x', 'o', 'b', 'X', 'O', 'B'} && Grouped(digits, HEX_DIGITS)
       case Decimal(whole, fraction, exponent, _) =>
         Grouped(whole, DIGITS) && (fraction == "" || Grouped(fraction, DIGITS)) && Exponent(exponent)
  }

  function Write(n: Numeral): string {
    match n
    case Radix(letter, digits, big) => "0" + [letter] + digits + big
    case Decimal(whole, fraction, exponent, big) =>
      whole + (if fraction == "" then "" else "." + fraction) + exponent + big
  }

  // ----- a run is as long as its digits -----

  /** The text does not continue a run of decimal digits. */
  predicate EndsDigits(v: string) {
    v == "" || (v[0] !in DIGITS && v[0] != '_')
  }

  lemma DigitsAre()
    ensures forall c: char :: c in DIGITS <==> IsDigit(c)
    ensures '_' !in DIGITS
  {
  }

  lemma HexDigitsAre()
    ensures forall c: char :: c in HEX_DIGITS <==> IsHex(c)
    ensures '_' !in HEX_DIGITS
  {
  }

  lemma {:induction false} DigitRunIs(d: string, v: string)
    requires Groups(d, DIGITS) && EndsDigits(v)
    ensures DigitRun(d + v) == |d|
    decreases |d|
  {
    hide Groups, DIGITS, IsDigit;
    DigitsAre();
    GroupsHead(d, DIGITS);
    if d == "" {
      assert d + v == v;
    } else if d[0] == '_' {
      assert (d + v)[2..] == d[2..] + v && d[1] in DIGITS;
      GroupsTail(d, DIGITS, 2);
      DigitRunIs(d[2..], v);
    } else {
      assert (d + v)[1..] == d[1..] + v;
      GroupsTail(d, DIGITS, 1);
      DigitRunIs(d[1..], v);
    }
  }

  lemma GroupsHead(d: string, of: set<char>)
    requires Groups(d, of)
    ensures d != "" ==> d[0] in of || (d[0] == '_' && |d| >= 2 && d[1] in of)
  {
  }

  lemma GroupsTail(d: string, of: set<char>, k: nat)
    requires Groups(d, of) && k <= |d|
    ensures Groups(d[k..], of)
  {
  }

  lemma {:induction false} HexRunIs(d: string, v: string)
    requires Groups(d, HEX_DIGITS) && (v == "" || (v[0] !in HEX_DIGITS && v[0] != '_'))
    ensures HexRun(d + v) == |d|
    decreases |d|
  {
    hide Groups, HEX_DIGITS, IsHex;
    HexDigitsAre();
    var of := HEX_DIGITS;
    GroupsHead(d, of);
    if d == "" {
      assert d + v == v;
    } else if d[0] == '_' {
      assert (d + v)[2..] == d[2..] + v && d[1] in of;
      GroupsTail(d, of, 2);
      HexRunIs(d[2..], v);
    } else {
      assert (d + v)[1..] == d[1..] + v;
      GroupsTail(d, of, 1);
      HexRunIs(d[1..], v);
    }
  }

  lemma {:induction false} PlainDigitRunIs(d: string, v: string)
    requires (forall i :: 0 <= i < |d| ==> d[i] in DIGITS) && (v == "" || v[0] !in DIGITS)
    ensures PlainDigitRun(d + v) == |d|
    decreases |d|
  {
    if d == "" {
      assert d + v == v;
    } else {
      assert (d + v)[1..] == d[1..] + v;
      PlainDigitRunIs(d[1..], v);
    }
  }

  lemma FractionRunIs(fraction: string, v: string)
    requires fraction == "" || Grouped(fraction, DIGITS)
    requires EndsDigits(v) && (v != "" ==> v[0] != '.')
    ensures FractionRun((if fraction == "" then "" else "." + fraction) + v) ==
            if fraction == "" then 0 else 1 + |fraction|
  {
    if fraction == "" {
      assert "" + v == v;
    } else {
      var u := "." + fraction + v;
      assert u[1..] == fraction + v;
      DigitRunIs(fraction, v);
    }
  }

  lemma ExponentRunIs(exponent: string, big: string)
    requires Exponent(exponent) && big in {"", "n", "N"}
    ensures ExponentRun(exponent + big) == |exponent|
  {
    var u := exponent + big;
    if exponent == "" {
      assert u == big;
    } else if PlainDigits(exponent[1..]) {
      assert u[1..] == exponent[1..] + big;
      PlainDigitRunIs(exponent[1..], big);
    } else {
      assert u[2..] == exponent[2..] + big;
      PlainDigitRunIs(exponent[2..], big);
    }
  }

  lemma ExponentStarts(exponent: string, big: string)
    requires Exponent(exponent) && big in {"", "n", "N"}
    ensures var u := exponent + big; EndsDigits(u) && (u != "" ==> u[0] in {'e', 'E', 'n', 'N'})
  {
  }

  lemma Cuts(whole: string, dotted: string, exponent: string, big: string)
    ensures var t, tail := whole + dotted + exponent + big, dotted + (exponent + big);
      t == whole + tail && t[|whole|..] == tail && t[|whole| + |dotted|..] == exponent + big
  {
  }

  lemma TailEnds(fraction: string, exponent: string, big: string)
    requires fraction == "" || Grouped(fraction, DIGITS)
    requires Exponent(exponent) && big in {"", "n", "N"}
    ensures var tail := (if fraction == "" then "" else "." + fraction) + (exponent + big);
      EndsDigits(tail) && (tail != "" ==> tail[0] in {'.', 'e', 'E', 'n', 'N'})
  {
    hide Exponent, Grouped;
    ExponentStarts(exponent, big);
  }

  lemma RunsAddUp(t: string, d: nat, f: nat, e: nat)
    requires t != "" && IsDigit(t[0]) && d == 1 + DigitRun(t[1..]) && d + f + e <= |t|
    requires f == FractionRun(t[d..]) && e == ExponentRun(t[d + f..])
    ensures DecimalRun(t) == d + f + e
  {
  }

  lemma DecimalReads(n: Numeral)
    requires NumeralOk(n) && n.Decimal?
    ensures var t := Write(n); t != "" && IsDigit(t[0]) && !RadixNumber(t) && DecimalRun(t) == |t| - |n.big|
  {
    hide DigitRun, FractionRun, ExponentRun, DecimalRun, Exponent, RadixNumber, Grouped, Groups, IsDigit, EndsDigits;
    var whole, fraction, exponent, big := n.whole, n.fraction, n.exponent, n.big;
    var dotted := if fraction == "" then "" else "." + fraction;
    Cuts(whole, dotted, exponent, big);
    TailEnds(fraction, exponent, big);
    ExponentStarts(exponent, big);
    var tail, end := dotted + (exponent + big), exponent + big;
    WholeStarts(whole, tail);
    WholeReads(whole, tail);
    FractionRunIs(fraction, end);
    ExponentRunIs(exponent, big);
    RunsAddUp(Write(n), |whole|, |dotted|, |exponent|);
    NoRadix(whole, tail);
  }

  lemma WholeReads(whole: string, tail: string)
    requires Grouped(whole, DIGITS) && EndsDigits(tail)
    ensures |whole| == 1 + DigitRun(whole[1..] + tail)
  {
    hide DigitRun, Groups;
    GroupsTail(whole, DIGITS, 1);
    DigitRunIs(whole[1..], tail);
  }

  lemma WholeStarts(whole: string, tail: string)
    requires Grouped(whole, DIGITS)
    ensures |whole + tail| > 0 && IsDigit((whole + tail)[0]) && (whole + tail)[1..] == whole[1..] + tail
    ensures (whole + tail)[|whole|..] == tail
  {
  }

  lemma NoRadix(whole: string, tail: string)
    requires Grouped(whole, DIGITS) && EndsDigits(tail)
    requires tail != "" ==> tail[0] in {'.', 'e', 'E', 'n', 'N'}
    ensures !RadixNumber(whole + tail)
  {
  }

  lemma RadixReads(n: Numeral)
    requires NumeralOk(n) && n.Radix?
    ensures var t := Write(n); |t| > 2 && IsDigit(t[0]) && RadixNumber(t) && 2 + HexRun(t[2..]) == |t| - |n.big|
  {
    var t := Write(n);
    assert t[2..] == n.digits + n.big;
    HexRunIs(n.digits, n.big);
  }

  lemma SuffixReads(t: string, big: string)
    requires big in {"", "n", "N"} && |big| <= |t| && t[|t| - |big|..] == big
    ensures SuffixRun(t[|t| - |big|..]) == |big|
  {
  }

  /** Every numeric literal is read to its end. */
  lemma NumeralReads(n: Numeral)
    requires NumeralOk(n)
    ensures NumText(Write(n))
  {
    hide DecimalRun, HexRun, RadixNumber, Exponent;
    var t := Write(n);
    if n.Radix? {
      RadixReads(n);
    } else {
      DecimalReads(n);
    }
    assert t[|t| - |n.big|..] == n.big;
    SuffixReads(t, n.big);
  }

  // ----- and nothing else is -----

  lemma GroupsCons(d: string, of: set<char>, k: nat)
    requires k <= |d| && Groups(d[k..], of)
    requires (k == 1 && d[0] in of) || (k == 2 && d[0] == '_' && d[1] in of)
    ensures Groups(d, of)
  {
    var rest := d[k..];
    forall i | 0 <= i < |d|
      ensures d[i] in of || d[i] == '_'
      ensures i < |d| - 1 && d[i] == '_' ==> d[i + 1] in of
    {
      if i >= k {
        assert rest[i - k] == d[i];
        assert i < |d| - 1 ==> rest[i - k + 1] == d[i + 1];
      }
    }
    assert rest != "" ==> rest[|rest| - 1] == d[|d| - 1];
  }

  lemma {:induction false} DigitRunGroups(u: string)
    ensures Groups(u[..DigitRun(u)], DIGITS)
    decreases |u|
  {
    hide Groups, DIGITS, IsDigit;
    DigitsAre();
    var d := u[..DigitRun(u)];
    if |u| >= 1 && IsDigit(u[0]) {
      DigitRunGroups(u[1..]);
      assert d[1..] == u[1..][..DigitRun(u[1..])];
      GroupsCons(d, DIGITS, 1);
    } else if |u| >= 2 && u[0] == '_' && IsDigit(u[1]) {
      DigitRunGroups(u[2..]);
      assert d[2..] == u[2..][..DigitRun(u[2..])];
      GroupsCons(d, DIGITS, 2);
    } else {
      NoGroups(d, DIGITS);
    }
  }

  lemma NoGroups(d: string, of: set<char>)
    requires d == ""
    ensures Groups(d, of)
  {
  }

  lemma {:induction false} HexRunGroups(u: string)
    ensures Groups(u[..HexRun(u)], HEX_DIGITS)
    decreases |u|
  {
    hide Groups, HEX_DIGITS, IsHex;
    HexDigitsAre();
    var d, of := u[..HexRun(u)], HEX_DIGITS;
    if |u| >= 1 && IsHex(u[0]) {
      HexRunGroups(u[1..]);
      assert d[1..] == u[1..][..HexRun(u[1..])];
      GroupsCons(d, of, 1);
    } else if |u| >= 2 && u[0] == '_' && IsHex(u[1]) {
      HexRunGroups(u[2..]);
      assert d[2..] == u[2..][..HexRun(u[2..])];
      GroupsCons(d, of, 2);
    } else {
      NoGroups(d, of);
    }
  }

  lemma {:induction false} PlainDigitRunDigits(u: string)
    ensures forall i :: 0 <= i < PlainDigitRun(u) ==> u[i] in DIGITS
    decreases |u|
  {
    if |u| >= 1 && IsDigit(u[0]) {
      PlainDigitRunDigits(u[1..]);
      assert forall i :: 0 < i < PlainDigitRun(u) ==> u[i] == u[1..][i - 1];
    }
  }

  lemma ExponentRunExponent(u: string)
    ensures Exponent(u[..ExponentRun(u)])
  {
    var e := u[..ExponentRun(u)];
    if |u| >= 2 && u[0] in {'e', 'E'} && IsDigit(u[1]) {
      PlainDigitRunDigits(u[1..]);
      assert forall i :: 0 <= i < |e| - 1 ==> e[1..][i] == u[1..][i];
    } else if e != "" {
      PlainDigitRunDigits(u[2..]);
      assert forall i :: 0 <= i < |e| - 2 ==> e[2..][i] == u[2..][i];
    }
  }

  lemma GroupedCons(d: string, of: set<char>)
    requires d != "" && d[0] in of && Groups(d[1..], of)
    ensures Grouped(d, of)
  {
    GroupsCons(d, of, 1);
  }

  lemma DecimalParts(t: string, n: nat) returns (whole: string, fraction: string, exponent: string)
    requires t != "" && IsDigit(t[0]) && n == DecimalRun(t)
    ensures Grouped(whole, DIGITS) && (fraction == "" || Grouped(fraction, DIGITS)) && Exponent(exponent)
    ensures t[..n] == whole + (if fraction == "" then "" else "." + fraction) + exponent
  {
    hide DigitRun, ExponentRun, Groups, Grouped, Exponent;
    var d := 1 + DigitRun(t[1..]);
    whole := t[..d];
    DigitRunGroups(t[1..]);
    assert whole[1..] == t[1..][..DigitRun(t[1..])];
    GroupedCons(whole, DIGITS);
    var u := t[d..];
    var f := FractionRun(u);
    fraction := if f == 0 then "" else u[1..f];
    if f > 0 {
      DigitRunGroups(u[1..]);
      assert fraction == u[1..][..DigitRun(u[1..])];
      FractionGrouped(u, fraction);
    }
    var v := t[d + f..];
    exponent := v[..ExponentRun(v)];
    ExponentRunExponent(v);
    assert t[..n] == whole + u[..f] + exponent;
    assert f > 0 ==> u[..f] == "." + fraction;
  }

  lemma FractionGrouped(u: string, fraction: string)
    requires FractionRun(u) > 0 && fraction == u[1..][..DigitRun(u[1..])] && Groups(fraction, DIGITS)
    ensures Grouped(fraction, DIGITS)
  {
  }

  lemma RadixGrouped(t: string)
    requires RadixNumber(t)
    ensures Grouped(t[2..2 + HexRun(t[2..])], HEX_DIGITS) && t[..2] == "0" + [t[1]]
    ensures t[1] in {'x', 'o', 'b', 'X', 'O', 'B'}
  {
    HexRunGroups(t[2..]);
    assert t[2..2 + HexRun(t[2..])] == t[2..][..HexRun(t[2..])];
  }

  /** A text is a number of the tokenizer exactly when it is a numeric literal. */
  lemma NumTextIff(t: string)
    ensures NumText(t) <==> exists n :: NumeralOk(n) && Write(n) == t
  {
    hide NumeralOk;
    if n :| NumeralOk(n) && Write(n) == t {
      NumeralReads(n);
    }
    if NumText(t) {
      var n := NumeralOf(t);
      assert NumeralOk(n) && Write(n) == t;
    }
  }

  lemma SuffixOf(big: string)
    requires SuffixRun(big) == |big|
    ensures big in {"", "n", "N"}
  {
    assert |big| == 1 ==> big == [big[0]];
  }

  lemma NumeralOf(t: string) returns (n: Numeral)
    requires NumText(t)
    ensures NumeralOk(n) && Write(n) == t
  {
    hide HexRun, DecimalRun, RadixNumber, Grouped, Exponent;
    var k := if RadixNumber(t) then 2 + HexRun(t[2..]) else DecimalRun(t);
    var big := t[k..];
    assert t == t[..k] + big;
    SuffixOf(big);
    if RadixNumber(t) {
      RadixGrouped(t);
      n := Radix(t[1], t[2..k], big);
      assert t[..k] == t[..2] + t[2..k];
    } else {
      var whole, fraction, exponent := DecimalParts(t, k);
      n := Decimal(whole, fraction, exponent, big);
    }
  }
}
