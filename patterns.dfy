/**
 * The five line patterns of the report parser, each written as a recogniser
 * over one line. None of the patterns is anchored at the end, so text after
 * the matched part is allowed; `\S`, `\d` and `.` are the classes of module Text.
 */
module Patterns {
  import opened Wrappers
  import opened Text

  const SourcePrefix := "Source: "
  const BitscorePrefix := "Cumulative Blast bit score: "
  const StartHitsPrefix := "Table of Blast hits"

  /** `^1. (\S+)`: a `1`, ANY character but a newline (the `.` is not escaped), a space, then the id. */
  function MatchId(line: string): (r: Option<string>)
    ensures r.Some? <==>
      3 < |line| && line[0] == '1' && line[1] != '\n' && line[2] == ' ' && !IsSpace(line[3])
    ensures r.Some? ==>
      |r.value| > 0 && MaximalRun(line, 3, 3 + |r.value|, NonSpace) && line[3..3 + |r.value|] == r.value
    ensures r.Some? ==> NoSpace(r.value)
  {
    if 3 <= |line| && line[0] == '1' && line[1] != '\n' && line[2] == ' ' then
      var j := RunEnd(line, 3, NonSpace);
      RunEndMaximal(line, 3, NonSpace);
      if 3 < j then Some(line[3..j]) else None
    else None
  }

  /** `^<prefix>(<cls>+)`: the greedy, non-empty run of `cls` right after a literal prefix. */
  function MatchPrefixedRun(line: string, prefix: string, cls: CharClass): (r: Option<string>)
    ensures r.Some? <==>
      StartsWith(line, prefix) && |prefix| < |line| && InClass(line[|prefix|], cls)
    ensures r.Some? ==>
      var n := |prefix|;
      |r.value| > 0 && MaximalRun(line, n, n + |r.value|, cls) && line[n..n + |r.value|] == r.value
  {
    if StartsWith(line, prefix) then
      var j := RunEnd(line, |prefix|, cls);
      RunEndMaximal(line, |prefix|, cls);
      if |prefix| < j then Some(line[|prefix|..j]) else None
    else None
  }

  /** `^Source: (.+)`. */
  function MatchSource(line: string): (r: Option<string>)
  {
    MatchPrefixedRun(line, SourcePrefix, NotNewline)
  }

  /** `^Cumulative Blast bit score: (\d+)`. */
  function MatchBitscore(line: string): (r: Option<string>)
  {
    MatchPrefixedRun(line, BitscorePrefix, Digit)
  }

  /** `^Table of Blast hits`. */
  predicate MatchStartHits(line: string)
  {
    StartsWith(line, StartHitsPrefix)
  }

  /** The id line of the report grammar is recognised, whatever character stands after the `1`. */
  lemma {:induction false} IdLineRoundTrip(wild: char, id: string, rest: string)
    requires wild != '\n' && |id| > 0 && NoSpace(id)
    requires rest == [] || IsSpace(rest[0])
    ensures MatchId(['1', wild, ' '] + id + rest) == Some(id)
  {
    var line := ['1', wild, ' '] + id + rest;
    assert line[3..3 + |id|] == id;
    assert forall k :: 3 <= k < 3 + |id| ==> line[k] == id[k - 3];
    assert 3 + |id| < |line| ==> line[3 + |id|] == rest[0];
    RunEndUnique(line, 3, 3 + |id|, NonSpace);
  }

  /** A prefix followed by a maximal run of `cls` is captured exactly. */
  lemma {:induction false} PrefixedRunRoundTrip(prefix: string, cls: CharClass, text: string, rest: string)
    requires |text| > 0 && forall k :: 0 <= k < |text| ==> InClass(text[k], cls)
    requires rest == [] || !InClass(rest[0], cls)
    ensures MatchPrefixedRun(prefix + text + rest, prefix, cls) == Some(text)
  {
    var line := prefix + text + rest;
    var n := |prefix|;
    assert line[..n] == prefix;
    assert line[n..n + |text|] == text;
    assert forall k :: n <= k < n + |text| ==> line[k] == text[k - n];
    assert n + |text| < |line| ==> line[n + |text|] == rest[0];
    RunEndUnique(line, n, n + |text|, cls);
  }

  /** `Source: <text>` gives back `<text>` when it holds no newline. */
  lemma SourceLineRoundTrip(text: string)
    requires |text| > 0 && '\n' !in text
    ensures MatchSource(SourcePrefix + text) == Some(text)
  {
    assert forall k :: 0 <= k < |text| ==> InClass(text[k], NotNewline) by {
      forall k | 0 <= k < |text| ensures text[k] != '\n' {
        assert text[k] in text;
      }
    }
    PrefixedRunRoundTrip(SourcePrefix, NotNewline, text, []);
    assert SourcePrefix + text + [] == SourcePrefix + text;
  }

  /** `Cumulative Blast bit score: <digits><rest>` gives back `<digits>` when `rest` does not start with a digit. */
  lemma BitscoreLineRoundTrip(digits: string, rest: string)
    requires |digits| > 0 && AllDigits(digits)
    requires rest == [] || !IsDigit(rest[0])
    ensures MatchBitscore(BitscorePrefix + digits + rest) == Some(digits)
  {
    PrefixedRunRoundTrip(BitscorePrefix, Digit, digits, rest);
  }

  /** Any line that starts with the table heading starts the hits table. */
  lemma StartHitsLine(rest: string)
    ensures MatchStartHits(StartHitsPrefix + rest)
  {
    assert (StartHitsPrefix + rest)[..|StartHitsPrefix|] == StartHitsPrefix;
  }

  // ---------------------------------------------------------------------------
  // Numbers: `\d+(?:\.\d+)?(?:e-?\d+)?`

  datatype Exponent = Exponent(negative: bool, digits: string)

  /** A number as the pattern spells it: digits, an optional fraction, an optional exponent. */
  datatype Numeral = Numeral(whole: string, fraction: Option<string>, exponent: Option<Exponent>)

  predicate ValidFraction(f: Option<string>)
  {
    f.Some? ==> |f.value| > 0 && AllDigits(f.value)
  }

  predicate ValidExponent(e: Option<Exponent>)
  {
    e.Some? ==> |e.value.digits| > 0 && AllDigits(e.value.digits)
  }

  predicate ValidNumeral(n: Numeral)
  {
    |n.whole| > 0 && AllDigits(n.whole) && ValidFraction(n.fraction) && ValidExponent(n.exponent)
  }

  function FractionText(f: Option<string>): (t: string)
  {
    match f
    case None => ""
    case Some(d) => "." + d
  }

  function ExponentText(e: Option<Exponent>): (t: string)
  {
    match e
    case None => ""
    case Some(x) => "e" + (if x.negative then "-" else "") + x.digits
  }

  function NumeralText(n: Numeral): (t: string)
  {
    n.whole + FractionText(n.fraction) + ExponentText(n.exponent)
  }

  /** `(?:\.\d+)?` at `i`, greedy: a dot is taken only together with at least one digit. */
  function FractionEnd(s: string, i: nat): (f: nat)
    requires i <= |s|
    ensures i <= f <= |s|
  {
    if i + 1 < |s| && s[i] == '.' && IsDigit(s[i + 1]) then RunEnd(s, i + 1, Digit) else i
  }

  /** Where the digits of an exponent at `i` begin: a minus sign is taken only when a digit follows it. */
  function ExponentDigits(s: string, i: nat): (d: nat)
  {
    if i + 2 < |s| && s[i] == 'e' && s[i + 1] == '-' && IsDigit(s[i + 2]) then i + 2 else i + 1
  }

  /** `(?:e-?\d+)?` at `i`, greedy. */
  function ExponentEnd(s: string, i: nat): (e: nat)
    requires i <= |s|
    ensures i <= e <= |s|
  {
    var d := ExponentDigits(s, i);
    if d < |s| && s[i] == 'e' && IsDigit(s[d]) then RunEnd(s, d, Digit) else i
  }

  /** The end of `\d+(?:\.\d+)?(?:e-?\d+)?` read from `i`, each part as greedy as the regex engine takes it. */
  function NumeralEnd(s: string, i: nat): (r: Option<nat>)
    requires i <= |s|
    ensures r.None? <==> (i == |s| || !IsDigit(s[i]))
    ensures r.Some? ==> i < r.value <= |s|
  {
    var w := RunEnd(s, i, Digit);
    if w == i then None else Some(ExponentEnd(s, FractionEnd(s, w)))
  }

  /** The part of a numeral the scanner is in: each is a digit run. */
  datatype Part = WholePart | FractionPart | ExponentPart

  /**
   * The number pattern as a scanner, one character at a time: digits extend the
   * current part; from the whole part a `.` followed by a digit starts the
   * fraction; from the whole part or the fraction an `e`, an optional `-`, and a
   * digit start the exponent; anything else ends the numeral.
   */
  function ScanNumber(s: string, j: nat, part: Part): (e: nat)
    requires j <= |s|
    ensures j <= e <= |s|
    decreases |s| - j
  {
    if j < |s| && IsDigit(s[j]) then ScanNumber(s, j + 1, part)
    else if part == WholePart && j + 1 < |s| && s[j] == '.' && IsDigit(s[j + 1]) then
      ScanNumber(s, j + 1, FractionPart)
    else if part != ExponentPart && j + 1 < |s| && s[j] == 'e' && IsDigit(s[j + 1]) then
      ScanNumber(s, j + 1, ExponentPart)
    else if part != ExponentPart && j + 2 < |s| && s[j] == 'e' && s[j + 1] == '-' && IsDigit(s[j + 2]) then
      ScanNumber(s, j + 2, ExponentPart)
    else j
  }

  /** In the exponent the scanner reads one digit run. */
  lemma {:induction false} ScanExponentPart(s: string, j: nat)
    requires j <= |s|
    ensures ScanNumber(s, j, ExponentPart) == RunEnd(s, j, Digit)
    decreases |s| - j
  {
    if j < |s| && IsDigit(s[j]) {
      ScanExponentPart(s, j + 1);
    }
  }

  /** In the fraction the scanner reads a digit run, then an optional exponent. */
  lemma {:induction false} ScanFractionPart(s: string, j: nat)
    requires j <= |s|
    ensures ScanNumber(s, j, FractionPart) == ExponentEnd(s, RunEnd(s, j, Digit))
    decreases |s| - j
  {
    if j < |s| && IsDigit(s[j]) {
      ScanFractionPart(s, j + 1);
    } else {
      ScanExponentStart(s, j, FractionPart);
    }
  }

  /** Where a digit run of the whole part or the fraction ends, the scanner reads an optional exponent. */
  lemma ScanExponentStart(s: string, j: nat, part: Part)
    requires j <= |s| && part != ExponentPart && (j == |s| || !IsDigit(s[j]))
    requires part == WholePart ==> !(j + 1 < |s| && s[j] == '.' && IsDigit(s[j + 1]))
    ensures ScanNumber(s, j, part) == ExponentEnd(s, j)
  {
    if j + 1 < |s| && s[j] == 'e' && IsDigit(s[j + 1]) {
      ScanExponentPart(s, j + 1);
    } else if j + 2 < |s| && s[j] == 'e' && s[j + 1] == '-' && IsDigit(s[j + 2]) {
      ScanExponentPart(s, j + 2);
    }
  }

  /** The scanner reads exactly what the three greedy parts of the number pattern read. */
  lemma {:induction false} ScanWholePart(s: string, j: nat)
    requires j <= |s|
    ensures ScanNumber(s, j, WholePart) == ExponentEnd(s, FractionEnd(s, RunEnd(s, j, Digit)))
    decreases |s| - j
  {
    if j < |s| && IsDigit(s[j]) {
      ScanWholePart(s, j + 1);
    } else if j + 1 < |s| && s[j] == '.' && IsDigit(s[j + 1]) {
      ScanFractionPart(s, j + 1);
    } else {
      ScanExponentStart(s, j, WholePart);
    }
  }

  /** What `FractionEnd` reads is the text of a valid fraction. */
  lemma FractionEndSound(s: string, i: nat) returns (fr: Option<string>)
    requires i <= |s|
    ensures ValidFraction(fr)
    ensures FractionEnd(s, i) == i + |FractionText(fr)| && s[i..FractionEnd(s, i)] == FractionText(fr)
  {
    var f := FractionEnd(s, i);
    if f > i {
      RunEndMaximal(s, i + 1, Digit);
      fr := Some(s[i + 1..f]);
      assert s[i..f] == "." + s[i + 1..f];
    } else {
      fr := None;
    }
  }

  /** What `ExponentEnd` reads is the text of a valid exponent. */
  lemma ExponentEndSound(s: string, i: nat) returns (ex: Option<Exponent>)
    requires i <= |s|
    ensures ValidExponent(ex)
    ensures ExponentEnd(s, i) == i + |ExponentText(ex)| && s[i..ExponentEnd(s, i)] == ExponentText(ex)
  {
    var e := ExponentEnd(s, i);
    if e > i {
      var d := ExponentDigits(s, i);
      RunEndMaximal(s, d, Digit);
      ex := Some(Exponent(d == i + 2, s[d..e]));
      assert s[i..d] == if d == i + 2 then "e-" else "e";
      assert s[i..e] == s[i..d] + s[d..e];
    } else {
      ex := None;
    }
  }

  /** What `NumeralEnd` reads is the text of a valid numeral. */
  lemma NumeralEndSound(s: string, i: nat) returns (n: Numeral)
    requires i <= |s| && NumeralEnd(s, i).Some?
    ensures ValidNumeral(n) && s[i..NumeralEnd(s, i).value] == NumeralText(n)
  {
    var w := RunEnd(s, i, Digit);
    RunEndMaximal(s, i, Digit);
    var fr := FractionEndSound(s, w);
    var f := FractionEnd(s, w);
    var ex := ExponentEndSound(s, f);
    var e := ExponentEnd(s, f);
    n := Numeral(s[i..w], fr, ex);
    SliceConcat(s, i, w, f, e);
  }

  lemma SliceConcat(s: string, i: nat, w: nat, f: nat, e: nat)
    requires i <= w <= f <= e <= |s|
    ensures s[i..e] == s[i..w] + s[w..f] + s[f..e]
  {
  }

  /** A slice of `s` that spells `a + b` splits into a slice for `a` and one for `b`. */
  lemma SliceSplit(s: string, i: nat, a: string, b: string)
    requires i + |a| + |b| <= |s| && s[i..i + |a| + |b|] == a + b
    ensures s[i..i + |a|] == a && s[i + |a|..i + |a| + |b|] == b
  {
    assert s[i..i + |a|] == s[i..i + |a| + |b|][..|a|];
    assert s[i + |a|..i + |a| + |b|] == s[i..i + |a| + |b|][|a|..];
  }

  /** A slice that spells a digit string is a maximal digit run when no digit follows it. */
  lemma DigitsRun(s: string, i: nat, d: string)
    requires i + |d| <= |s| && s[i..i + |d|] == d && AllDigits(d)
    requires i + |d| == |s| || !IsDigit(s[i + |d|])
    ensures RunEnd(s, i, Digit) == i + |d|
  {
    assert forall k :: i <= k < i + |d| ==> s[k] == d[k - i];
    RunEndUnique(s, i, i + |d|, Digit);
  }

  /** A fraction spelled at `i` and not followed by a digit is read back exactly. */
  lemma FractionRoundTrip(s: string, i: nat, fr: Option<string>)
    requires ValidFraction(fr)
    requires i + |FractionText(fr)| <= |s| && s[i..i + |FractionText(fr)|] == FractionText(fr)
    requires i + |FractionText(fr)| == |s| || !IsDigit(s[i + |FractionText(fr)|])
    requires fr.None? ==> i == |s| || s[i] != '.'
    ensures FractionEnd(s, i) == i + |FractionText(fr)|
  {
    if fr.Some? {
      var d := fr.value;
      SliceSplit(s, i, ".", d);
      assert s[i] == '.' by { assert s[i..i + 1] == "."; }
      assert IsDigit(s[i + 1]) by { assert s[i + 1] == d[0]; }
      DigitsRun(s, i + 1, d);
    }
  }

  /** An exponent spelled at `i` and not followed by a digit is read back exactly. */
  lemma ExponentRoundTrip(s: string, i: nat, ex: Option<Exponent>)
    requires ValidExponent(ex)
    requires i + |ExponentText(ex)| <= |s| && s[i..i + |ExponentText(ex)|] == ExponentText(ex)
    requires i + |ExponentText(ex)| == |s| || !IsDigit(s[i + |ExponentText(ex)|])
    requires ex.None? ==> i == |s| || s[i] != 'e'
    ensures ExponentEnd(s, i) == i + |ExponentText(ex)|
  {
    if ex.Some? {
      var x := ex.value;
      var sign := if x.negative then "-" else "";
      SliceSplit(s, i, "e" + sign, x.digits);
      SliceSplit(s, i, "e", sign);
      var ds := i + 1 + |sign|;
      assert s[i] == 'e' by { assert s[i..i + 1] == "e"; }
      assert x.negative ==> s[i + 1] == '-' by { assert x.negative ==> s[i + 1..i + 2] == "-"; }
      assert IsDigit(s[ds]) by { assert s[ds] == x.digits[0]; }
      assert ExponentDigits(s, i) == ds;
      DigitsRun(s, ds, x.digits);
    }
  }

  /** The slices of a spelled numeral: its whole part, its fraction, its exponent. */
  lemma NumeralParts(s: string, i: nat, n: Numeral)
    requires i + |NumeralText(n)| <= |s| && s[i..i + |NumeralText(n)|] == NumeralText(n)
    ensures var w := i + |n.whole|;
            var f := w + |FractionText(n.fraction)|;
            var e := f + |ExponentText(n.exponent)|;
            e == i + |NumeralText(n)| &&
            s[i..w] == n.whole && s[w..f] == FractionText(n.fraction) && s[f..e] == ExponentText(n.exponent)
  {
    var ft, et := FractionText(n.fraction), ExponentText(n.exponent);
    SliceSplit(s, i, n.whole + ft, et);
    SliceSplit(s, i, n.whole, ft);
  }

  /** The character at `j`, where `t` is spelled, is the first of `t`. */
  lemma FirstOfSlice(s: string, j: nat, t: string)
    requires j + |t| <= |s| && s[j..j + |t|] == t && |t| > 0
    ensures s[j] == t[0]
  {
  }

  /** A numeral followed by whitespace or the end of the line is read back exactly. */
  lemma NumeralEndRoundTrip(s: string, i: nat, n: Numeral)
    requires ValidNumeral(n)
    requires i + |NumeralText(n)| <= |s| && s[i..i + |NumeralText(n)|] == NumeralText(n)
    requires i + |NumeralText(n)| == |s| || IsSpace(s[i + |NumeralText(n)|])
    ensures NumeralEnd(s, i) == Some(i + |NumeralText(n)|)
  {
    NumeralParts(s, i, n);
    var w := i + |n.whole|;
    var f := w + |FractionText(n.fraction)|;
    var e := f + |ExponentText(n.exponent)|;
    assert e == |s| || (!IsDigit(s[e]) && s[e] != '.' && s[e] != 'e');
    PartsRoundTrip(s, i, n, w, f, e);
  }

  /** The three parts of a numeral, spelled one after the other and followed by no number character, are read back. */
  lemma PartsRoundTrip(s: string, i: nat, n: Numeral, w: nat, f: nat, e: nat)
    requires ValidNumeral(n)
    requires w == i + |n.whole| && f == w + |FractionText(n.fraction)| && e == f + |ExponentText(n.exponent)|
    requires e <= |s| && s[i..w] == n.whole && s[w..f] == FractionText(n.fraction) && s[f..e] == ExponentText(n.exponent)
    requires e == |s| || (!IsDigit(s[e]) && s[e] != '.' && s[e] != 'e')
    ensures NumeralEnd(s, i) == Some(e)
  {
    PartsBoundaries(s, n, w, f, e);
    DigitsRun(s, i, n.whole);
    FractionRoundTrip(s, w, n.fraction);
    ExponentRoundTrip(s, f, n.exponent);
    NumeralEndFrom(s, i, w, f, e);
  }

  /** `NumeralEnd` composes its three parts. */
  lemma NumeralEndFrom(s: string, i: nat, w: nat, f: nat, e: nat)
    requires i < w <= |s| && RunEnd(s, i, Digit) == w
    requires f <= |s| && FractionEnd(s, w) == f && ExponentEnd(s, f) == e
    ensures NumeralEnd(s, i) == Some(e)
  {
  }

  /** What stands right after the whole part and after the fraction of a spelled numeral. */
  lemma PartsBoundaries(s: string, n: Numeral, w: nat, f: nat, e: nat)
    requires f == w + |FractionText(n.fraction)| && e == f + |ExponentText(n.exponent)|
    requires e <= |s| && s[w..f] == FractionText(n.fraction) && s[f..e] == ExponentText(n.exponent)
    requires e == |s| || (!IsDigit(s[e]) && s[e] != '.' && s[e] != 'e')
    ensures f == |s| || (!IsDigit(s[f]) && s[f] != '.')
    ensures n.exponent.None? ==> f == |s| || s[f] != 'e'
    ensures w == |s| || !IsDigit(s[w])
    ensures n.fraction.None? ==> w == |s| || s[w] != '.'
  {
    var ft, et := FractionText(n.fraction), ExponentText(n.exponent);
    if |et| > 0 { FirstOfSlice(s, f, et); }
    if |ft| > 0 { FirstOfSlice(s, w, ft); }
    else if |et| > 0 { FirstOfSlice(s, w, et); }
  }

  /** `t` is one whole numeral, as the number pattern reads it. */
  predicate IsNumeral(t: string)
  {
    0 < |t| && IsDigit(t[0]) && ScanNumber(t, 0, WholePart) == |t|
  }

  /** The numerals are exactly the texts of valid `Numeral` values. */
  lemma IsNumeralMeaning(t: string)
    ensures IsNumeral(t) <==> exists n :: ValidNumeral(n) && NumeralText(n) == t
  {
    if IsNumeral(t) {
      ScanWholePart(t, 0);
      assert NumeralEnd(t, 0) == Some(|t|);
      var n := NumeralEndSound(t, 0);
      assert t[0..|t|] == t;
    }
    if exists n :: ValidNumeral(n) && NumeralText(n) == t {
      var n :| ValidNumeral(n) && NumeralText(n) == t;
      NumeralIsNumeral(n);
    }
  }

  /** The text of every valid numeral is a numeral. */
  lemma NumeralIsNumeral(n: Numeral)
    requires ValidNumeral(n)
    ensures IsNumeral(NumeralText(n))
  {
    var t := NumeralText(n);
    assert t[0..|t|] == t;
    NumeralEndRoundTrip(t, 0, n);
    ScanWholePart(t, 0);
  }

  /** The characters a numeral is spelled with. */
  predicate NumberChar(c: char)
  {
    IsDigit(c) || c == '.' || c == 'e' || c == '-'
  }

  /** A numeral holds nothing but digits, `.`, `e` and `-`: no tab and no comma. */
  lemma NumeralChars(t: string)
    requires IsNumeral(t)
    ensures forall k :: 0 <= k < |t| ==> NumberChar(t[k])
  {
    IsNumeralMeaning(t);
    var n :| ValidNumeral(n) && NumeralText(n) == t;
    var ft, et := FractionText(n.fraction), ExponentText(n.exponent);
    assert forall k :: 0 <= k < |ft| ==> NumberChar(ft[k]);
    assert forall k :: 0 <= k < |et| ==> NumberChar(et[k]);
    assert t == n.whole + ft + et;
  }

  /** What `NumeralEnd` reads is, on its own, one whole numeral. */
  lemma NumeralEndPrefix(s: string, i: nat)
    requires i <= |s| && NumeralEnd(s, i).Some?
    ensures IsNumeral(s[i..NumeralEnd(s, i).value])
  {
    var n := NumeralEndSound(s, i);
    NumeralIsNumeral(n);
  }

  // ---------------------------------------------------------------------------
  // Hit rows: `^\S+\t\S+\t(\d+)\t\d+\t<number>\t(<number>)`

  /** One column of the hit-row pattern: a run of a character class, or a number. */
  datatype Column = Run(cls: CharClass) | Number

  /** The six columns the hit-row pattern requires, separated by single tabs. */
  const HitLayout: seq<Column> := [Run(NonSpace), Run(NonSpace), Run(Digit), Run(Digit), Number, Number]

  /** `t` is a possible text of column `col`: a non-empty run, or the text of one valid numeral. */
  predicate ColumnText(t: string, col: Column)
  {
    match col
    case Run(cls) => |t| > 0 && forall k :: 0 <= k < |t| ==> InClass(t[k], cls)
    case Number => IsNumeral(t)
  }

  /** Each text fits the column at the same place in `layout`. */
  predicate ColumnsFit(cols: seq<string>, layout: seq<Column>)
  {
    |cols| == |layout| && forall k :: 0 <= k < |cols| ==> ColumnText(cols[k], layout[k])
  }

  /** The end of column `col` when it starts at `i`: greedy, as the regex engine reads it. */
  function ScanColumn(s: string, i: nat, col: Column): (r: Option<nat>)
    requires i <= |s|
    ensures r.Some? ==> i < r.value <= |s|
  {
    if col.Run? then
      var j := RunEnd(s, i, col.cls);
      if i < j then Some(j) else None
    else if i < |s| && IsDigit(s[i]) then
      Some(ScanNumber(s, i, WholePart))
    else
      None
  }

  /** What `ScanColumn` reads is a text of that column. */
  lemma ScanColumnFits(s: string, i: nat, col: Column)
    requires i <= |s| && ScanColumn(s, i, col).Some?
    ensures ColumnText(s[i..ScanColumn(s, i, col).value], col)
  {
    if col.Run? {
      RunEndMaximal(s, i, col.cls);
    } else {
      ScanWholePart(s, i);
      NumeralEndPrefix(s, i);
    }
  }

  /** The columns of `layout`, each ended by a tab except the last, read from `i` on. */
  function ScanColumns(s: string, i: nat, layout: seq<Column>): (r: Option<seq<string>>)
    requires i <= |s| && |layout| > 0
    ensures r.Some? ==> |r.value| == |layout|
    decreases |layout|
  {
    var e :- ScanColumn(s, i, layout[0]);
    if |layout| == 1 then
      Some([s[i..e]])
    else if e < |s| && s[e] == '\t' then
      var rest :- ScanColumns(s, e + 1, layout[1..]);
      Some([s[i..e]] + rest)
    else
      None
  }

  /** The columns `ScanColumns` returns, joined by tabs, are the text it read. */
  lemma {:induction false} ScanColumnsSpell(s: string, i: nat, layout: seq<Column>)
    requires i <= |s| && |layout| > 0 && ScanColumns(s, i, layout).Some?
    ensures var t := Join(ScanColumns(s, i, layout).value, '\t');
            i + |t| <= |s| && s[i..i + |t|] == t
    decreases |layout|
  {
    var e := ScanColumn(s, i, layout[0]).value;
    if |layout| > 1 {
      var rest := ScanColumns(s, e + 1, layout[1..]).value;
      ScanColumnsSpell(s, e + 1, layout[1..]);
      TabJoinedAt(s, i, e, rest);
      assert ScanColumns(s, i, layout).value == [s[i..e]] + rest;
    } else {
      assert ScanColumns(s, i, layout).value == [s[i..e]];
    }
  }

  /** A column, a tab, then the joined rest, spell the joined columns. */
  lemma TabJoinedAt(s: string, i: nat, e: nat, rest: seq<string>)
    requires i <= e < |s| && s[e] == '\t' && |rest| > 0
    requires var tr := Join(rest, '\t'); e + 1 + |tr| <= |s| && s[e + 1..e + 1 + |tr|] == tr
    ensures var t := Join([s[i..e]] + rest, '\t'); i + |t| <= |s| && s[i..i + |t|] == t
  {
    var tr := Join(rest, '\t');
    assert ([s[i..e]] + rest)[1..] == rest;
    assert s[i..e + 1 + |tr|] == s[i..e] + ['\t'] + tr;
  }

  /** Every column `ScanColumns` returns fits its place in the layout. */
  lemma {:induction false} ScanColumnsFit(s: string, i: nat, layout: seq<Column>)
    requires i <= |s| && |layout| > 0 && ScanColumns(s, i, layout).Some?
    ensures ColumnsFit(ScanColumns(s, i, layout).value, layout)
    decreases |layout|
  {
    var e := ScanColumnsHead(s, i, layout);
    ScanColumnFits(s, i, layout[0]);
    if |layout| > 1 {
      ScanColumnsFit(s, e + 1, layout[1..]);
      FitCons(s[i..e], ScanColumns(s, e + 1, layout[1..]).value, layout);
    } else {
      FitCons(s[i..e], [], layout);
    }
  }

  /** How `ScanColumns` read its first column and the rest. */
  lemma ScanColumnsHead(s: string, i: nat, layout: seq<Column>) returns (e: nat)
    requires i <= |s| && |layout| > 0 && ScanColumns(s, i, layout).Some?
    ensures ScanColumn(s, i, layout[0]) == Some(e) && i < e <= |s|
    ensures |layout| == 1 ==> ScanColumns(s, i, layout).value == [s[i..e]]
    ensures |layout| > 1 ==>
      e < |s| && s[e] == '\t' && ScanColumns(s, e + 1, layout[1..]).Some? &&
      ScanColumns(s, i, layout).value == [s[i..e]] + ScanColumns(s, e + 1, layout[1..]).value
  {
    e := ScanColumn(s, i, layout[0]).value;
  }

  /** A fitting first column and fitting rest make fitting columns. */
  lemma FitCons(c: string, rest: seq<string>, layout: seq<Column>)
    requires |layout| > 0 && ColumnText(c, layout[0])
    requires |layout| == 1 ==> rest == []
    requires |layout| > 1 ==> ColumnsFit(rest, layout[1..])
    ensures ColumnsFit([c] + rest, layout)
  {
    var cols := [c] + rest;
    forall k | 0 <= k < |cols|
      ensures ColumnText(cols[k], layout[k])
    {
      if k > 0 {
        assert cols[k] == rest[k - 1] && layout[k] == layout[1..][k - 1];
      }
    }
  }

  /** What the parser keeps of a hit row: `int` of the third column and the sixth column's lexeme. */
  datatype Hit = Hit(pctId: nat, evalue: string)

  /** The hit-row pattern, keeping `int` of the third column and the lexeme of the sixth. */
  function MatchHitRow(line: string): (r: Option<Hit>)
  {
    var cols :- ScanColumns(line, 0, HitLayout);
    ScanColumnsFit(line, 0, HitLayout);
    assert ColumnText(cols[2], Run(Digit));
    Some(Hit(DigitsValue(cols[2]), cols[5]))
  }

  /** A line is accepted only if it begins with the six columns of `HitLayout`, separated by tabs. */
  lemma MatchHitRowSound(line: string) returns (cols: seq<string>)
    requires MatchHitRow(line).Some?
    ensures ColumnsFit(cols, HitLayout) && StartsWith(line, Join(cols, '\t'))
    ensures AllDigits(cols[2]) && MatchHitRow(line).value == Hit(DigitsValue(cols[2]), cols[5])
  {
    cols := ScanColumns(line, 0, HitLayout).value;
    ScanColumnsFit(line, 0, HitLayout);
    ScanColumnsSpell(line, 0, HitLayout);
    assert ColumnText(cols[2], Run(Digit));
  }

  /** The e-value a hit row yields is one whole numeral. */
  lemma HitEvalueIsNumeral(line: string)
    requires MatchHitRow(line).Some?
    ensures IsNumeral(MatchHitRow(line).value.evalue)
  {
    var cols := MatchHitRowSound(line);
    assert ColumnText(cols[5], Number);
  }

  /** Whitespace ends a column of every kind the hit-row pattern uses. */
  predicate StopsAtSpace(col: Column)
  {
    col.Run? ==> col.cls != NotNewline
  }

  /** A column text followed by whitespace or the end of the line is scanned back exactly. */
  lemma ScanColumnRoundTrip(s: string, i: nat, col: Column, t: string)
    requires StopsAtSpace(col) && ColumnText(t, col)
    requires i + |t| <= |s| && s[i..i + |t|] == t
    requires i + |t| == |s| || IsSpace(s[i + |t|])
    ensures ScanColumn(s, i, col) == Some(i + |t|)
  {
    if col.Run? {
      assert forall k :: i <= k < i + |t| ==> s[k] == t[k - i];
      RunEndUnique(s, i, i + |t|, col.cls);
    } else {
      IsNumeralMeaning(t);
      var n :| ValidNumeral(n) && NumeralText(n) == t;
      NumeralEndRoundTrip(s, i, n);
      ScanWholePart(s, i);
    }
  }

  /** The first of several joined columns in `s`: its text, the tab after it, and the joined rest. */
  lemma FirstColumnAt(s: string, i: nat, cols: seq<string>)
    requires |cols| > 1
    requires var t := Join(cols, '\t'); i + |t| <= |s| && s[i..i + |t|] == t
    ensures var e := i + |cols[0]|; var tr := Join(cols[1..], '\t');
            e + 1 + |tr| == i + |Join(cols, '\t')| &&
            s[i..e] == cols[0] && s[e] == '\t' && s[e + 1..e + 1 + |tr|] == tr
  {
    var e := i + |cols[0]|;
    var tr := Join(cols[1..], '\t');
    SliceSplit(s, i, cols[0] + "\t", tr);
    SliceSplit(s, i, cols[0], "\t");
    assert s[e] == '\t' by { assert s[e..e + 1] == "\t"; }
  }

  /** One step of `ScanColumns`: a column, a tab, then the rest. */
  lemma ScanColumnsStep(s: string, i: nat, layout: seq<Column>, e: nat, rest: seq<string>)
    requires |layout| > 1 && i <= |s|
    requires ScanColumn(s, i, layout[0]) == Some(e) && e < |s| && s[e] == '\t'
    requires ScanColumns(s, e + 1, layout[1..]) == Some(rest)
    ensures ScanColumns(s, i, layout) == Some([s[i..e]] + rest)
  {
  }

  /** The tail of fitting columns fits the tail of the layout. */
  lemma FitTail(cols: seq<string>, layout: seq<Column>)
    requires ColumnsFit(cols, layout) && |layout| > 0
    ensures ColumnsFit(cols[1..], layout[1..])
  {
    forall k | 0 <= k < |cols| - 1
      ensures ColumnText(cols[1..][k], layout[1..][k])
    {
      assert cols[1..][k] == cols[k + 1];
    }
  }

  /** Columns joined by tabs and followed by whitespace or nothing are scanned back exactly. */
  lemma {:induction false} ScanColumnsRoundTrip(s: string, i: nat, layout: seq<Column>, cols: seq<string>)
    requires |layout| > 0 && ColumnsFit(cols, layout)
    requires forall k :: 0 <= k < |layout| ==> StopsAtSpace(layout[k])
    requires var t := Join(cols, '\t'); i + |t| <= |s| && s[i..i + |t|] == t
    requires var t := Join(cols, '\t'); i + |t| == |s| || IsSpace(s[i + |t|])
    ensures ScanColumns(s, i, layout) == Some(cols)
    decreases |layout|
  {
    assert ColumnText(cols[0], layout[0]);
    if |layout| == 1 {
      ScanColumnRoundTrip(s, i, layout[0], cols[0]);
      assert cols == [s[i..i + |cols[0]|]];
    } else {
      var rest := cols[1..];
      var e := i + |cols[0]|;
      FirstColumnAt(s, i, cols);
      ScanColumnRoundTrip(s, i, layout[0], cols[0]);
      FitTail(cols, layout);
      ScanColumnsRoundTrip(s, e + 1, layout[1..], rest);
      ScanColumnsStep(s, i, layout, e, rest);
      assert cols == [s[i..e]] + rest;
    }
  }

  /** A column text starts with a character its column accepts first, so the column's scan reads something. */
  lemma ScanColumnStarts(s: string, i: nat, col: Column, t: string)
    requires ColumnText(t, col)
    requires i + |t| <= |s| && s[i..i + |t|] == t
    ensures ScanColumn(s, i, col).Some?
  {
    FirstOfSlice(s, i, t);
    if col.Run? {
      assert InClass(t[0], col.cls);
    }
  }

  /**
   * Columns joined by tabs are accepted whatever follows them: every column
   * but the last is ended by its tab and read back exactly; the last is read
   * from its first character on, and may run on into the text after it.
   */
  lemma {:induction false} ScanColumnsAccept(s: string, i: nat, layout: seq<Column>, cols: seq<string>)
    requires |layout| > 0 && ColumnsFit(cols, layout)
    requires forall k :: 0 <= k < |layout| ==> StopsAtSpace(layout[k])
    requires var t := Join(cols, '\t'); i + |t| <= |s| && s[i..i + |t|] == t
    ensures ScanColumns(s, i, layout).Some?
    ensures ScanColumns(s, i, layout).value[..|layout| - 1] == cols[..|layout| - 1]
    decreases |layout|
  {
    if |layout| == 1 {
      assert ColumnText(cols[0], layout[0]);
      ScanColumnStarts(s, i, layout[0], cols[0]);
    } else {
      var e := AcceptHead(s, i, layout, cols);
      ScanColumnsAccept(s, e + 1, layout[1..], cols[1..]);
      AcceptCombine(s, i, layout, cols, e, ScanColumns(s, e + 1, layout[1..]).value);
    }
  }

  /** The first of several joined columns is read back exactly, up to its tab; the rest still fits. */
  lemma AcceptHead(s: string, i: nat, layout: seq<Column>, cols: seq<string>) returns (e: nat)
    requires |layout| > 1 && ColumnsFit(cols, layout)
    requires forall k :: 0 <= k < |layout| ==> StopsAtSpace(layout[k])
    requires var t := Join(cols, '\t'); i + |t| <= |s| && s[i..i + |t|] == t
    ensures e < |s| && s[e] == '\t' && ScanColumn(s, i, layout[0]) == Some(e) && s[i..e] == cols[0]
    ensures ColumnsFit(cols[1..], layout[1..])
    ensures forall k :: 0 <= k < |layout[1..]| ==> StopsAtSpace(layout[1..][k])
    ensures var t := Join(cols[1..], '\t'); e + 1 + |t| <= |s| && s[e + 1..e + 1 + |t|] == t
  {
    assert ColumnText(cols[0], layout[0]);
    e := i + |cols[0]|;
    FirstColumnAt(s, i, cols);
    ScanColumnRoundTrip(s, i, layout[0], cols[0]);
    FitTail(cols, layout);
  }

  /** The first column, its tab, and the rest read on from there make the columns read from `i`. */
  lemma AcceptCombine(s: string, i: nat, layout: seq<Column>, cols: seq<string>, e: nat, rest: seq<string>)
    requires |layout| > 1 && |cols| == |layout| && i <= |s|
    requires ScanColumn(s, i, layout[0]) == Some(e) && e < |s| && s[e] == '\t' && s[i..e] == cols[0]
    requires ScanColumns(s, e + 1, layout[1..]) == Some(rest)
    requires rest[..|layout| - 2] == cols[1..][..|layout| - 2]
    ensures ScanColumns(s, i, layout).Some?
    ensures ScanColumns(s, i, layout).value[..|layout| - 1] == cols[..|layout| - 1]
  {
    ScanColumnsStep(s, i, layout, e, rest);
    InitCons(cols, rest);
  }

  /** The same first column and the same columns but the last in the rest give the same columns but the last. */
  lemma InitCons(cols: seq<string>, rest: seq<string>)
    requires |cols| > 1 && |rest| == |cols| - 1 && rest[..|rest| - 1] == cols[1..][..|rest| - 1]
    ensures ([cols[0]] + rest)[..|rest|] == cols[..|rest|]
  {
    assert forall k :: 0 <= k < |rest| - 1 ==> rest[k] == rest[..|rest| - 1][k];
  }

  /**
   * The hit-row pattern is not anchored at the end: six columns of the layout
   * are accepted whatever text follows them, with the third column's value.
   * Only the last column can take in more of that text.
   */
  lemma HitRowAccepts(cols: seq<string>, rest: string)
    requires ColumnsFit(cols, HitLayout)
    ensures AllDigits(cols[2])
    ensures MatchHitRow(Join(cols, '\t') + rest).Some?
    ensures MatchHitRow(Join(cols, '\t') + rest).value.pctId == DigitsValue(cols[2])
  {
    var line := Join(cols, '\t') + rest;
    assert line[..|Join(cols, '\t')|] == Join(cols, '\t');
    assert ColumnText(cols[2], Run(Digit));
    ScanColumnsAccept(line, 0, HitLayout, cols);
    var read := ScanColumns(line, 0, HitLayout).value;
    assert read[2] == read[..5][2];
  }

  /** A line is a hit row exactly when it begins with six tab-joined columns of the layout. */
  lemma HitRowMatches(line: string)
    ensures MatchHitRow(line).Some? <==>
      exists cols :: ColumnsFit(cols, HitLayout) && StartsWith(line, Join(cols, '\t'))
  {
    if MatchHitRow(line).Some? {
      var cols := MatchHitRowSound(line);
    }
    if exists cols :: ColumnsFit(cols, HitLayout) && StartsWith(line, Join(cols, '\t')) {
      var cols :| ColumnsFit(cols, HitLayout) && StartsWith(line, Join(cols, '\t'));
      var t := Join(cols, '\t');
      HitRowAccepts(cols, line[|t|..]);
      assert t + line[|t|..] == line;
    }
  }

  /** Every well-formed hit row, followed by whitespace or nothing, is recognised: percent identity and e-value. */
  lemma HitRowRoundTrip(cols: seq<string>, rest: string)
    requires ColumnsFit(cols, HitLayout)
    requires rest == [] || IsSpace(rest[0])
    ensures AllDigits(cols[2])
    ensures MatchHitRow(Join(cols, '\t') + rest) == Some(Hit(DigitsValue(cols[2]), cols[5]))
  {
    var line := Join(cols, '\t') + rest;
    assert line[..|Join(cols, '\t')|] == Join(cols, '\t');
    assert ColumnText(cols[2], Run(Digit));
    ScanColumnsRoundTrip(line, 0, HitLayout, cols);
  }
}
