/**
 * The slice of Python's `str` behaviour the modelled code relies on:
 * prefix/suffix/substring tests, `strip`, `split`/`join` on one separator,
 * `replace`, decimal formatting of integers and the ordering `sorted` uses.
 * Strings are sequences of code points; there is no normalisation.
 */
module Text {

  /** `s.startswith(p)` */
  predicate StartsWith(s: string, p: string) {
    |p| <= |s| && s[..|p|] == p
  }

  /** `s.endswith(p)` */
  predicate EndsWith(s: string, p: string) {
    |p| <= |s| && s[|s| - |p|..] == p
  }

  /** `p` occurs in `s` starting at index `i`. */
  predicate OccursAt(s: string, p: string, i: int) {
    0 <= i && i + |p| <= |s| && s[i..i + |p|] == p
  }

  /** `p in s` on strings. */
  predicate Contains(s: string, p: string) {
    exists i | 0 <= i <= |s| - |p| :: OccursAt(s, p, i)
  }

  /**
   * The characters `str.strip()` removes when called without an argument:
   * those for which `str.isspace()` holds, including the separators
   * U+001C..U+001F and the Unicode spaces.
   */
  const Whitespace: set<char> := {
    '\t', '\n', '\U{B}', '\U{C}', '\r', '\U{1C}', '\U{1D}', '\U{1E}', '\U{1F}', ' ',
    '\U{85}', '\U{A0}', '\U{1680}',
    '\U{2000}', '\U{2001}', '\U{2002}', '\U{2003}', '\U{2004}', '\U{2005}',
    '\U{2006}', '\U{2007}', '\U{2008}', '\U{2009}', '\U{200A}',
    '\U{2028}', '\U{2029}', '\U{202F}', '\U{205F}', '\U{3000}'}

  /** How many leading characters of `s` belong to `cs`. */
  function LeadingCount(s: string, cs: set<char>): (n: nat)
    ensures n <= |s|
    ensures forall k :: 0 <= k < n ==> s[k] in cs
    ensures n < |s| ==> s[n] !in cs
  {
    if |s| > 0 && s[0] in cs then 1 + LeadingCount(s[1..], cs) else 0
  }

  /** The index where the trailing run of characters of `cs` in `s` starts. */
  function TrailingStart(s: string, cs: set<char>): (n: nat)
    ensures n <= |s|
    ensures forall k :: n <= k < |s| ==> s[k] in cs
    ensures n > 0 ==> s[n - 1] !in cs
  {
    if |s| > 0 && s[|s| - 1] in cs then TrailingStart(s[..|s| - 1], cs) else |s|
  }

  /** `s.strip(cs)`: drop the leading and trailing characters that belong to `cs`. */
  function Strip(s: string, cs: set<char>): string {
    var e := TrailingStart(s, cs);
    s[LeadingCount(s[..e], cs)..e]
  }

  /** An occurrence of `p` in `s` lies wholly inside the part `Strip` keeps. */
  lemma OccurrenceInsideStrip(s: string, p: string, cs: set<char>, i: int)
    requires |p| > 0 && p[0] !in cs && p[|p| - 1] !in cs
    requires OccursAt(s, p, i)
    ensures var e := TrailingStart(s, cs); LeadingCount(s[..e], cs) <= i && i + |p| <= e
  {
    var e := TrailingStart(s, cs);
    assert s[i] == p[0];
    assert s[i + |p| - 1] == p[|p| - 1];
    assert i + |p| - 1 < e;
  }

  /**
   * Stripping never changes whether `p` occurs in a string, as long as `p`
   * neither starts nor ends with a stripped character.
   */
  lemma StripKeepsOccurrences(s: string, p: string, cs: set<char>)
    requires |p| > 0 && p[0] !in cs && p[|p| - 1] !in cs
    ensures Contains(Strip(s, cs), p) <==> Contains(s, p)
  {
    if Contains(s, p) {
      var i :| 0 <= i <= |s| - |p| && OccursAt(s, p, i);
      OccurrenceKeptByStrip(s, p, cs, i);
    }
    if Contains(Strip(s, cs), p) {
      var j :| 0 <= j <= |Strip(s, cs)| - |p| && OccursAt(Strip(s, cs), p, j);
      OccurrenceInStripped(s, p, cs, j);
    }
  }

  lemma OccurrenceKeptByStrip(s: string, p: string, cs: set<char>, i: int)
    requires |p| > 0 && p[0] !in cs && p[|p| - 1] !in cs
    requires OccursAt(s, p, i)
    ensures Contains(Strip(s, cs), p)
  {
    var e := TrailingStart(s, cs);
    var b := LeadingCount(s[..e], cs);
    OccurrenceInsideStrip(s, p, cs, i);
    SliceOfSlice(s, b, e, i - b, |p|);
    assert OccursAt(s[b..e], p, i - b);
  }

  lemma OccurrenceInStripped(s: string, p: string, cs: set<char>, j: int)
    requires OccursAt(Strip(s, cs), p, j)
    ensures Contains(s, p)
  {
    var e := TrailingStart(s, cs);
    var b := LeadingCount(s[..e], cs);
    SliceOfSlice(s, b, e, j, |p|);
    assert OccursAt(s, p, j + b);
  }

  /** A slice of a slice is a slice of the whole. */
  lemma SliceOfSlice(s: string, b: int, e: int, j: int, n: int)
    requires 0 <= b <= e <= |s| && 0 <= j && 0 <= n && j + n <= e - b
    ensures s[b..e][j..j + n] == s[b + j..b + j + n]
  {
    var x, y := s[b..e][j..j + n], s[b + j..b + j + n];
    forall i | 0 <= i < n
      ensures x[i] == y[i]
    {
      assert x[i] == s[b..e][j + i] == s[b + j + i];
    }
  }

  /** `s.split(sep)` for a one-character separator: the pieces between separators. */
  function Split(s: string, sep: char): (r: seq<string>)
    ensures |r| >= 1
    decreases |s|
  {
    if |s| == 0 then [""]
    else
      var rest := Split(s[1..], sep);
      if s[0] == sep then [""] + rest else [[s[0]] + rest[0]] + rest[1..]
  }

  /** `sep.join(ls)` */
  function Join(ls: seq<string>, sep: char): string {
    if |ls| == 0 then ""
    else if |ls| == 1 then ls[0]
    else ls[0] + [sep] + Join(ls[1..], sep)
  }

  /** No piece produced by `Split` contains the separator. */
  lemma {:induction false} SplitPiecesHaveNoSeparator(s: string, sep: char)
    ensures forall i :: 0 <= i < |Split(s, sep)| ==> sep !in Split(s, sep)[i]
    decreases |s|
  {
    if |s| > 0 {
      SplitPiecesHaveNoSeparator(s[1..], sep);
      var rest := Split(s[1..], sep);
      if s[0] != sep {
        assert sep !in rest[0];
        assert sep !in [s[0]] + rest[0];
      }
    }
  }

  /** Splitting text that starts with a separator-free piece `x`. */
  lemma {:induction false} SplitAfterPiece(x: string, t: string, sep: char)
    requires sep !in x
    ensures Split(x + t, sep) == [x + Split(t, sep)[0]] + Split(t, sep)[1..]
    decreases |x|
  {
    if |x| > 0 {
      assert (x + t)[1..] == x[1..] + t;
      SplitAfterPiece(x[1..], t, sep);
      assert [x[0]] + (x[1..] + Split(t, sep)[0]) == x + Split(t, sep)[0];
    } else {
      assert x + t == t;
      var r := Split(t, sep);
      assert x + r[0] == r[0];
      assert [r[0]] + r[1..] == r;
    }
  }

  /** Joining lines that hold no separator and splitting again gives the lines back. */
  lemma {:induction false} SplitJoinRoundTrip(ls: seq<string>, sep: char)
    requires |ls| >= 1
    requires forall i :: 0 <= i < |ls| ==> sep !in ls[i]
    ensures Split(Join(ls, sep), sep) == ls
  {
    if |ls| == 1 {
      SplitAfterPiece(ls[0], "", sep);
      assert ls[0] + "" == ls[0];
    } else {
      SplitJoinRoundTrip(ls[1..], sep);
      var t := [sep] + Join(ls[1..], sep);
      assert Join(ls, sep) == ls[0] + t;
      SplitAfterPiece(ls[0], t, sep);
      assert t[1..] == Join(ls[1..], sep);
      assert Split(t, sep) == [""] + ls[1..];
      assert ls[0] + "" == ls[0];
      assert [ls[0]] + ls[1..] == ls;
    }
  }

  /** The decimal digit for `d`. */
  function DigitChar(d: nat): (c: char)
    requires d < 10
    ensures '0' <= c <= '9'
  {
    ('0' as int + d) as char
  }

  /** The value of a decimal digit. */
  function DigitValue(c: char): (d: nat)
    requires '0' <= c <= '9'
    ensures d < 10
  {
    c as int - '0' as int
  }

  predicate AllDigits(s: string) {
    forall i :: 0 <= i < |s| ==> '0' <= s[i] <= '9'
  }

  /** `str(n)` for a natural number: its decimal digits, most significant first. */
  function NatToString(n: nat): (r: string)
    ensures |r| >= 1 && AllDigits(r)
  {
    if n < 10 then [DigitChar(n)] else NatToString(n / 10) + [DigitChar(n % 10)]
  }

  /** `int(s)` on a string of decimal digits. */
  function DigitsValue(s: string): nat
    requires AllDigits(s)
  {
    if |s| == 0 then 0 else DigitsValue(s[..|s| - 1]) * 10 + DigitValue(s[|s| - 1])
  }

  /** Reading back the decimal rendering of `n` gives `n`. */
  lemma {:induction false} NatToStringRoundTrip(n: nat)
    ensures DigitsValue(NatToString(n)) == n
  {
    var r := NatToString(n);
    if n < 10 {
      assert r[..|r| - 1] == "";
    } else {
      NatToStringRoundTrip(n / 10);
      assert r[..|r| - 1] == NatToString(n / 10);
    }
  }

  /** Distinct numbers have distinct decimal renderings. */
  lemma NatToStringInjective(a: nat, b: nat)
    ensures NatToString(a) == NatToString(b) ==> a == b
  {
    NatToStringRoundTrip(a);
    NatToStringRoundTrip(b);
  }

  /** `str(i)` for any integer: a minus sign before the digits of a negative one. */
  function IntToString(i: int): (r: string)
    ensures |r| >= 1
    ensures i < 0 <==> r[0] == '-'
  {
    if i < 0 then "-" + NatToString(-i) else NatToString(i)
  }

  /** `s.replace(pat, rep)`: every non-overlapping occurrence, scanning left to right. */
  function ReplaceAll(s: string, pat: string, rep: string): string
    requires |pat| > 0
    decreases |s|
  {
    if |s| < |pat| then s
    else if s[..|pat|] == pat then rep + ReplaceAll(s[|pat|..], pat, rep)
    else [s[0]] + ReplaceAll(s[1..], pat, rep)
  }

  /** Python's `a < b` on strings: lexicographic by code point, a proper prefix first. */
  predicate Less(a: string, b: string) {
    if |a| == 0 then |b| > 0
    else if |b| == 0 then false
    else if a[0] != b[0] then a[0] < b[0]
    else Less(a[1..], b[1..])
  }

  lemma {:induction false} LessIrreflexive(a: string)
    ensures !Less(a, a)
  {
    if |a| > 0 {
      LessIrreflexive(a[1..]);
    }
  }

  lemma {:induction false} LessTransitive(a: string, b: string, c: string)
    requires Less(a, b) && Less(b, c)
    ensures Less(a, c)
  {
    if |a| > 0 && |b| > 0 && |c| > 0 && a[0] == b[0] && b[0] == c[0] {
      LessTransitive(a[1..], b[1..], c[1..]);
    }
  }

  lemma {:induction false} LessTotal(a: string, b: string)
    requires a != b
    ensures Less(a, b) || Less(b, a)
  {
    if |a| > 0 && |b| > 0 && a[0] == b[0] {
      assert a == [a[0]] + a[1..] && b == [b[0]] + b[1..];
      LessTotal(a[1..], b[1..]);
    }
  }
}
