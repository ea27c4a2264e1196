/**
 * The few JavaScript string built-ins the formatter relies on, stated over
 * Dafny strings (sequences of Unicode characters): the `\s` class, which is
 * also what `String.prototype.trim` removes; `/Islands?$/.test`; the
 * `toLowerCase()` comparison against an all-lower-case ASCII word;
 * `Array.prototype.join`; and the `("0" + n).slice(-2)` clock padding.
 */
module JsStrings {

  /** ECMAScript LineTerminator: the characters `.` does not match. */
  predicate IsLineTerminator(c: char)
  {
    c == '\n' || c == '\r' || c == '\U{2028}' || c == '\U{2029}'
  }

  /** ECMAScript WhiteSpace and LineTerminator characters: the regex class `\s`. */
  const WhiteSpaceChars: set<char> := {
    '\t', '\U{000B}', '\U{000C}', ' ', '\U{00A0}', '\U{1680}',
    '\U{2000}', '\U{2001}', '\U{2002}', '\U{2003}', '\U{2004}', '\U{2005}',
    '\U{2006}', '\U{2007}', '\U{2008}', '\U{2009}', '\U{200A}',
    '\U{202F}', '\U{205F}', '\U{3000}', '\U{FEFF}',
    '\n', '\r', '\U{2028}', '\U{2029}'
  }

  predicate IsWhiteSpace(c: char)
  {
    c in WhiteSpaceChars
  }

  predicate EndsWith(s: string, suffix: string)
  {
    |suffix| <= |s| && s[|s| - |suffix|..] == suffix
  }

  predicate StartsWith(s: string, prefix: string)
  {
    |prefix| <= |s| && s[..|prefix|] == prefix
  }

  /** `/Islands?$/.test(s)`: the name ends in "Island" or "Islands" (case-sensitive). */
  predicate IsIslandName(s: string)
  {
    EndsWith(s, "Island") || EndsWith(s, "Islands")
  }

  function LowerAscii(c: char): char
  {
    if 'A' <= c <= 'Z' then (c as int + 32) as char else c
  }

  /**
   * `s.toLowerCase() == word` for an all-lower-case ASCII `word`. Besides
   * A-Z, only U+0130 and U+212A lower-case to something containing ASCII
   * letters: U+0130 becomes two characters, one of them not ASCII, and
   * U+212A becomes 'k'. The words compared against here contain no 'k', so
   * folding A-Z alone decides the comparison exactly.
   */
  predicate LowerCaseIs(s: string, word: string)
  {
    |s| == |word| && forall i :: 0 <= i < |s| ==> LowerAscii(s[i]) == word[i]
  }

  /** The first index from `i` on that does not hold white space, or `|s|`. */
  function SkipWhiteSpace(s: string, i: nat): (j: nat)
    requires i <= |s|
    ensures i <= j <= |s|
    ensures forall k :: i <= k < j ==> IsWhiteSpace(s[k])
    ensures j < |s| ==> !IsWhiteSpace(s[j])
    decreases |s| - i
  {
    if i < |s| && IsWhiteSpace(s[i]) then SkipWhiteSpace(s, i + 1) else i
  }

  /** The least `b`, with `lo <= b <= j`, such that `s[b..j]` is all white space. */
  function SkipWhiteSpaceBack(s: string, lo: nat, j: nat): (b: nat)
    requires lo <= j <= |s|
    ensures lo <= b <= j
    ensures forall k :: b <= k < j ==> IsWhiteSpace(s[k])
    ensures b > lo ==> !IsWhiteSpace(s[b - 1])
    decreases j - lo
  {
    if lo < j && IsWhiteSpace(s[j - 1]) then SkipWhiteSpaceBack(s, lo, j - 1) else j
  }

  /** `r` is the factor `s[i..j]`, with only white space around it. */
  predicate FactorAmidWhiteSpace(s: string, r: string, i: int, j: int)
  {
    && 0 <= i <= j <= |s|
    && r == s[i..j]
    && (forall k :: 0 <= k < i ==> IsWhiteSpace(s[k]))
    && (forall k :: j <= k < |s| ==> IsWhiteSpace(s[k]))
  }

  /** `String.prototype.trim`. */
  function Trim(s: string): string
  {
    var i := SkipWhiteSpace(s, 0);
    s[i..SkipWhiteSpaceBack(s, i, |s|)]
  }

  /**
   * Trimming keeps the factor of `s` that neither starts nor ends with white
   * space, and cuts only white space on either side.
   */
  lemma TrimCutsOnlyWhiteSpace(s: string)
    ensures exists i, j :: FactorAmidWhiteSpace(s, Trim(s), i, j)
    ensures Trim(s) != [] ==> !IsWhiteSpace(Trim(s)[0]) && !IsWhiteSpace(Trim(s)[|Trim(s)| - 1])
  {
    var i := SkipWhiteSpace(s, 0);
    var j := SkipWhiteSpaceBack(s, i, |s|);
    assert FactorAmidWhiteSpace(s, Trim(s), i, j);
    if i < j {
      assert Trim(s)[0] == s[i] && Trim(s)[|Trim(s)| - 1] == s[j - 1];
    }
  }

  /** A text between two line breaks, neither starting nor ending with white space, trims to itself. */
  lemma TrimLineBreaks(a: string)
    requires a != [] && !IsWhiteSpace(a[0]) && !IsWhiteSpace(a[|a| - 1])
    ensures Trim("\n" + a + "\n") == a
  {
    var s := "\n" + a + "\n";
    assert SkipWhiteSpace(s, 1) == 1;
    assert SkipWhiteSpace(s, 0) == 1;
    assert SkipWhiteSpaceBack(s, 1, |s| - 1) == |s| - 1;
    assert SkipWhiteSpaceBack(s, 1, |s|) == |s| - 1;
    assert s[1..|s| - 1] == a;
  }

  /** `parts.join(sep)`. */
  function Join(parts: seq<string>, sep: string): string
  {
    if |parts| == 0 then ""
    else if |parts| == 1 then parts[0]
    else parts[0] + sep + Join(parts[1..], sep)
  }

  /** Joining one more part appends the separator and that part. */
  lemma {:induction false} JoinSnoc(parts: seq<string>, p: string, sep: string)
    requires parts != []
    ensures Join(parts + [p], sep) == Join(parts, sep) + sep + p
    decreases |parts|
  {
    if |parts| == 1 {
      assert (parts + [p])[1..] == [p];
    } else {
      assert (parts + [p])[1..] == parts[1..] + [p];
      JoinSnoc(parts[1..], p, sep);
      assert Join(parts + [p], sep) == parts[0] + sep + (Join(parts[1..], sep) + sep + p);
    }
  }

  function DigitChar(d: nat): char
    requires d < 10
  {
    "0123456789"[d]
  }

  /** The decimal numeral JavaScript writes for a non-negative integer. */
  function DecimalString(n: nat): (r: string)
    ensures |r| >= 1
    decreases n
  {
    if n < 10 then [DigitChar(n)] else DecimalString(n / 10) + [DigitChar(n % 10)]
  }

  /**
   * `("0" + n).slice(-2)`: the last two characters of the numeral with a
   * zero in front, which for the clock readings 0..59 is the zero-padded
   * two-digit form.
   */
  function TwoDigits(n: nat): (r: string)
    ensures |r| == 2
    ensures n < 100 ==> r == [DigitChar(n / 10), DigitChar(n % 10)]
  {
    var s := "0" + DecimalString(n);
    if n < 10 then
      assert s == ['0', DigitChar(n)];
      s[|s| - 2..]
    else if n < 100 then
      assert DecimalString(n / 10) == [DigitChar(n / 10)];
      assert s == ['0', DigitChar(n / 10), DigitChar(n % 10)];
      s[|s| - 2..]
    else
      s[|s| - 2..]
  }
}
