/**
 * Character classes, maximal runs, decimal conversion and the join/split pair
 * that the recognisers and the tab-separated formatter are built on.
 */
module Text {

  /** Python's `\s` on `str` patterns: the characters `str.isspace()` accepts. */
  predicate IsSpace(c: char)
  {
    c == ' ' || ('\t' <= c <= '\r') || ('\U{1c}' <= c <= '\U{1f}') ||
    c == '\U{85}' || c == '\U{a0}' || c == '\U{1680}' ||
    ('\U{2000}' <= c <= '\U{200a}') || c == '\U{2028}' || c == '\U{2029}' ||
    c == '\U{202f}' || c == '\U{205f}' || c == '\U{3000}'
  }

  /** `\d`, restricted to the ASCII digits. */
  predicate IsDigit(c: char)
  {
    '0' <= c <= '9'
  }

  /** The character classes the report patterns repeat with `+`. */
  datatype CharClass = NonSpace | Digit | NotNewline

  predicate InClass(c: char, cls: CharClass)
  {
    match cls
    case NonSpace => !IsSpace(c)
    case Digit => IsDigit(c)
    case NotNewline => c != '\n'   // the `.` wildcard
  }

  /** `s[i..j]` lies in `cls` and cannot be extended: what a greedy `cls+` or `cls*` consumes from `i`. */
  predicate MaximalRun(s: string, i: nat, j: nat, cls: CharClass)
  {
    i <= j <= |s| &&
    (forall k :: i <= k < j ==> InClass(s[k], cls)) &&
    (j == |s| || !InClass(s[j], cls))
  }

  /** End of the greedy run of `cls` characters starting at `i`. */
  function RunEnd(s: string, i: nat, cls: CharClass): (j: nat)
    requires i <= |s|
    ensures i <= j <= |s|
    decreases |s| - i
  {
    if i == |s| || !InClass(s[i], cls) then i else RunEnd(s, i + 1, cls)
  }

  /** `RunEnd` stops exactly where the greedy run does. */
  lemma {:induction false} RunEndMaximal(s: string, i: nat, cls: CharClass)
    requires i <= |s|
    ensures MaximalRun(s, i, RunEnd(s, i, cls), cls)
    decreases |s| - i
  {
    if i < |s| && InClass(s[i], cls) {
      RunEndMaximal(s, i + 1, cls);
    }
  }

  /** A maximal run is determined by its start: any maximal run from `i` ends where `RunEnd` does. */
  lemma {:induction false} RunEndUnique(s: string, i: nat, j: nat, cls: CharClass)
    requires MaximalRun(s, i, j, cls)
    ensures RunEnd(s, i, cls) == j
    decreases j - i
  {
    if i < j {
      RunEndUnique(s, i + 1, j, cls);
    }
  }

  predicate StartsWith(s: string, prefix: string)
  {
    |prefix| <= |s| && s[..|prefix|] == prefix
  }

  predicate AllDigits(s: string)
  {
    forall k :: 0 <= k < |s| ==> IsDigit(s[k])
  }

  predicate NoSpace(s: string)
  {
    forall k :: 0 <= k < |s| ==> !IsSpace(s[k])
  }

  function DigitValue(c: char): (d: nat)
    requires IsDigit(c)
  {
    (c as int - '0' as int) as nat
  }

  function DigitChar(d: nat): (c: char)
    requires d < 10
    ensures IsDigit(c) && DigitValue(c) == d
  {
    ('0' as int + d) as char
  }

  /** Python's `int(s)` on a run of decimal digits. */
  function DigitsValue(s: string): (n: nat)
    requires AllDigits(s)
  {
    if |s| == 0 then 0 else DigitsValue(s[..|s| - 1]) * 10 + DigitValue(s[|s| - 1])
  }

  /** Python's `str(n)` on a non-negative integer: decimal, no leading zeros. */
  function NatToString(n: nat): (s: string)
    ensures |s| > 0 && AllDigits(s)
    ensures |s| > 1 ==> s[0] != '0'
  {
    if n < 10 then [DigitChar(n)] else NatToString(n / 10) + [DigitChar(n % 10)]
  }

  /** `int(str(n)) == n`. */
  lemma {:induction false} NatToStringRoundTrip(n: nat)
    ensures DigitsValue(NatToString(n)) == n
  {
    var s := NatToString(n);
    if n >= 10 {
      NatToStringRoundTrip(n / 10);
      assert s[..|s| - 1] == NatToString(n / 10);
    }
  }

  /** `sep.join(xs)`. */
  function Join(xs: seq<string>, sep: char): (t: string)
  {
    if |xs| == 0 then ""
    else if |xs| == 1 then xs[0]
    else xs[0] + [sep] + Join(xs[1..], sep)
  }

  /** `s.split(sep)`: the pieces between the separators, always at least one. */
  function Split(s: string, sep: char): (parts: seq<string>)
    ensures |parts| > 0
  {
    if |s| == 0 then [""]
    else
      var parts := Split(s[1..], sep);
      if s[0] == sep then [""] + parts
      else [[s[0]] + parts[0]] + parts[1..]
  }

  /** Separator-free text followed by `rest` extends the first piece of `rest`. */
  lemma {:induction false} SplitPrefix(a: string, rest: string, sep: char)
    requires sep !in a
    ensures var p := Split(rest, sep);
            Split(a + rest, sep) == [a + p[0]] + p[1..]
  {
    if |a| > 0 {
      var p := Split(rest, sep);
      SplitPrefix(a[1..], rest, sep);
      var q := Split(a[1..] + rest, sep);
      assert q == [a[1..] + p[0]] + p[1..];
      assert (a + rest)[0] == a[0] && (a + rest)[1..] == a[1..] + rest;
      assert a[0] != sep by { assert a[0] in a; }
      assert Split(a + rest, sep) == [[a[0]] + q[0]] + q[1..];
      assert [a[0]] + (a[1..] + p[0]) == a + p[0];
    } else {
      assert a + rest == rest;
      var p := Split(rest, sep);
      assert a + p[0] == p[0];
      assert [p[0]] + p[1..] == p;
    }
  }

  /** Splitting undoes joining when no piece contains the separator. */
  lemma {:induction false} SplitJoin(xs: seq<string>, sep: char)
    requires |xs| > 0
    requires forall i :: 0 <= i < |xs| ==> sep !in xs[i]
    ensures Split(Join(xs, sep), sep) == xs
  {
    if |xs| == 1 {
      SplitPrefix(xs[0], "", sep);
      assert xs[0] + "" == xs[0];
    } else {
      SplitJoin(xs[1..], sep);
      var r := [sep] + Join(xs[1..], sep);
      assert Join(xs, sep) == xs[0] + r;
      SplitPrefix(xs[0], r, sep);
      assert r[0] == sep && r[1..] == Join(xs[1..], sep);
      assert Split(r, sep) == [""] + Split(r[1..], sep);
      var p := Split(r, sep);
      assert p[0] == "" && p[1..] == xs[1..];
      assert xs[0] + p[0] == xs[0];
      assert xs == [xs[0]] + xs[1..];
    }
  }
}
