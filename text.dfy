/** The option type used wherever the program tests for `None`. */
module Wrappers {
  datatype Option<+T> = None | Some(value: T)
}

/**
 * The few Python string operations the research pipeline relies on:
 * `str.strip()`, `str.split()`, `str.replace(c, d)`, `str.lower()`,
 * `str.upper()` and `str(n)` for a natural number.
 */
module Text {

  /** Python's `str.isspace()` for one code point: the characters that
      `strip()` and `split()` (with no argument) treat as whitespace. */
  predicate IsSpace(c: char) {
    var n := c as int;
    (9 <= n <= 13) || (28 <= n <= 32) || n == 0x85 || n == 0xA0 || n == 0x1680
    || (0x2000 <= n <= 0x200A) || n == 0x2028 || n == 0x2029 || n == 0x202F
    || n == 0x205F || n == 0x3000
  }

  predicate NoSpace(s: string) {
    forall i :: 0 <= i < |s| ==> !IsSpace(s[i])
  }

  predicate AllSpace(s: string) {
    forall i :: 0 <= i < |s| ==> IsSpace(s[i])
  }

  /** A string `strip()` leaves alone: no whitespace at either end. */
  predicate IsStripped(s: string) {
    s == [] || (!IsSpace(s[0]) && !IsSpace(s[|s| - 1]))
  }

  /** The first index from `i` on that does not hold whitespace, or
      `|s|` when there is none. */
  function SkipBlanks(s: string, i: nat): (j: nat)
    requires i <= |s|
    ensures i <= j <= |s|
    ensures forall m :: i <= m < j ==> IsSpace(s[m])
    ensures j < |s| ==> !IsSpace(s[j])
    decreases |s| - i
  {
    if i < |s| && IsSpace(s[i]) then SkipBlanks(s, i + 1) else i
  }

  /** The first index from `i` on that holds whitespace, or `|s|` when
      there is none. */
  function SkipToken(s: string, i: nat): (j: nat)
    requires i <= |s|
    ensures i <= j <= |s|
    ensures forall m :: i <= m < j ==> !IsSpace(s[m])
    ensures j < |s| ==> IsSpace(s[j])
    decreases |s| - i
  {
    if i < |s| && !IsSpace(s[i]) then SkipToken(s, i + 1) else i
  }

  /** Scanning down from `j`, the end of the last non-whitespace character
      at or above `lo` (or `lo` itself). */
  function TrimEnd(s: string, lo: nat, j: nat): (e: nat)
    requires lo <= j <= |s|
    ensures lo <= e <= j
    ensures forall m :: e <= m < j ==> IsSpace(s[m])
    ensures e > lo ==> !IsSpace(s[e - 1])
    decreases j
  {
    if j > lo && IsSpace(s[j - 1]) then TrimEnd(s, lo, j - 1) else j
  }

  /** How many whitespace characters `s` starts with. */
  function LeadingBlanks(s: string): (n: nat)
    ensures n <= |s|
    ensures forall i :: 0 <= i < n ==> IsSpace(s[i])
    ensures n < |s| ==> !IsSpace(s[n])
  {
    SkipBlanks(s, 0)
  }

  /** `s.strip()`: `s` without its leading and trailing whitespace. The
      result is the infix of `s` that starts at the first non-whitespace
      character; only whitespace lies outside it. */
  function Strip(s: string): (r: string)
    ensures IsStripped(r)
    ensures var k := LeadingBlanks(s);
      k + |r| <= |s| && r == s[k..k + |r|]
      && (forall i :: 0 <= i < k ==> IsSpace(s[i]))
      && (forall i :: k + |r| <= i < |s| ==> IsSpace(s[i]))
  {
    var k := SkipBlanks(s, 0);
    var e := TrimEnd(s, k, |s|);
    var r := s[k..e];
    assert r != [] ==> r[0] == s[k] && r[|r| - 1] == s[e - 1];
    r
  }

  /** Stripping an already stripped string changes nothing, so stripping
      twice (as the summary path does) is the same as stripping once. */
  lemma StripIdempotent(s: string)
    ensures Strip(Strip(s)) == Strip(s)
  {
    StripOfStripped(Strip(s));
  }

  lemma StripOfStripped(s: string)
    requires IsStripped(s)
    ensures Strip(s) == s
  {
    assert SkipBlanks(s, 0) == 0;
    assert TrimEnd(s, 0, |s|) == |s|;
    assert s[0..|s|] == s;
  }

  /** A prefix that neither starts nor ends with whitespace survives
      `strip()`. */
  lemma StripKeepsPrefix(p: string, s: string)
    requires p != [] && IsStripped(p)
    ensures p <= Strip(p + s)
  {
    var x := p + s;
    assert x[0] == p[0];
    assert LeadingBlanks(x) == 0;
    var r := Strip(x);
    assert x[|p| - 1] == p[|p| - 1];
    assert |r| >= |p|;
    assert r[..|p|] == x[..|p|] == p;
  }

  /** `strip()` removes exactly the blank padding around a stripped,
      non-empty core. */
  lemma StripPadding(pre: string, w: string, post: string)
    requires AllSpace(pre) && AllSpace(post) && w != [] && IsStripped(w)
    ensures Strip(pre + w + post) == w
  {
    var x := pre + w + post;
    var e := |pre| + |w|;
    PaddedStart(pre, w, post);
    var r := Strip(x);
    assert r != [] by {
      assert x[|pre|] == w[0];
    }
    assert |r| <= |w| by {
      assert r[|r| - 1] == x[|pre| + |r| - 1];
      assert forall i :: e <= i < |x| ==> x[i] == post[i - e];
    }
    assert |r| >= |w| by {
      assert x[e - 1] == w[|w| - 1];
    }
    assert forall i :: 0 <= i < |w| ==> r[i] == x[|pre| + i] == w[i];
  }

  /** The leading whitespace of a padded string is its padding. */
  lemma PaddedStart(pre: string, w: string, post: string)
    requires AllSpace(pre) && w != [] && !IsSpace(w[0])
    ensures LeadingBlanks(pre + w + post) == |pre|
  {
    var x := pre + w + post;
    assert forall i :: 0 <= i < |pre| ==> x[i] == pre[i];
    assert x[|pre|] == w[0];
  }

  /** `strip()` yields the empty string exactly when the input is blank. */
  lemma StripEmpty(s: string)
    ensures Strip(s) == [] <==> AllSpace(s)
  {
    var k := LeadingBlanks(s);
    if Strip(s) != [] {
      assert s[k] == Strip(s)[0];
    }
  }

  /** The words of `s` from index `i` on: the maximal runs of
      non-whitespace, in order. */
  function WordsFrom(s: string, i: nat): (ws: seq<string>)
    requires i <= |s|
    ensures forall k :: 0 <= k < |ws| ==> ws[k] != [] && NoSpace(ws[k])
    decreases |s| - i
  {
    var k := SkipBlanks(s, i);
    if k == |s| then []
    else
      var e := SkipToken(s, k);
      assert forall m :: 0 <= m < e - k ==> s[k..e][m] == s[k + m];
      [s[k..e]] + WordsFrom(s, e)
  }

  /** `s.split()` with no argument: empty runs are discarded. */
  function Words(s: string): (ws: seq<string>)
    ensures forall k :: 0 <= k < |ws| ==> ws[k] != [] && NoSpace(ws[k])
  {
    WordsFrom(s, 0)
  }

  /** From any index, `split()` finds no further word exactly when only
      whitespace is left. */
  lemma WordsFromBlank(s: string, i: nat)
    requires i <= |s|
    ensures WordsFrom(s, i) == [] <==> forall m :: i <= m < |s| ==> IsSpace(s[m])
  {
    var k := SkipBlanks(s, i);
    if k < |s| {
      assert !IsSpace(s[k]);
    }
  }

  /** From any index, `split()` skips the whitespace, reads the word up to
      the next whitespace or the end, and goes on from there. With
      `WordsFromBlank` this determines the words of every string: its maximal
      whitespace-free runs, in order. */
  lemma WordsFromRun(s: string, i: nat, k: nat, e: nat)
    requires i <= k < e <= |s|
    requires forall m :: i <= m < k ==> IsSpace(s[m])
    requires forall m :: k <= m < e ==> !IsSpace(s[m])
    requires e == |s| || IsSpace(s[e])
    ensures WordsFrom(s, i) == [s[k..e]] + WordsFrom(s, e)
  {
    BlanksEnd(s, i, k);
    TokenEnd(s, k, e);
  }

  /** `SkipBlanks` stops at the first character that is not whitespace. */
  lemma {:induction false} BlanksEnd(s: string, i: nat, e: nat)
    requires i <= e <= |s|
    requires forall m :: i <= m < e ==> IsSpace(s[m])
    requires e == |s| || !IsSpace(s[e])
    ensures SkipBlanks(s, i) == e
    decreases e - i
  {
    if i < e {
      BlanksEnd(s, i + 1, e);
    }
  }

  /** `SkipToken` stops at the first whitespace. */
  lemma {:induction false} TokenEnd(s: string, i: nat, e: nat)
    requires i <= e <= |s|
    requires forall m :: i <= m < e ==> !IsSpace(s[m])
    requires e == |s| || IsSpace(s[e])
    ensures SkipToken(s, i) == e
    decreases e - i
  {
    if i < e {
      TokenEnd(s, i + 1, e);
    }
  }

  /** `s.split()[0]`, with "" standing for the IndexError raised when the
      split is empty. */
  function FirstWord(s: string): (w: string)
    ensures w == [] <==> AllSpace(s)
    ensures NoSpace(w)
  {
    var ws := Words(s);
    if ws == [] then [] else ws[0]
  }

  /** The first word is the maximal whitespace-free run that follows the
      leading whitespace of `s`; it is empty exactly for a blank `s`. */
  lemma FirstWordPlace(s: string)
    ensures var w := FirstWord(s); var k := LeadingBlanks(s);
      w != [] ==> k + |w| <= |s| && s[k..k + |w|] == w && (k + |w| == |s| || IsSpace(s[k + |w|]))
  {
    var k := SkipBlanks(s, 0);
    if k < |s| {
      var e := SkipToken(s, k);
      assert FirstWord(s) == s[k..e];
    }
  }

  /** Every character of the first word occurs in `s`. */
  lemma FirstWordChars(s: string)
    ensures forall x :: x in FirstWord(s) ==> x in s
  {
    var w := FirstWord(s);
    var k := LeadingBlanks(s);
    FirstWordPlace(s);
    forall x | x in w ensures x in s {
      var i :| 0 <= i < |w| && w[i] == x;
      assert s[k..k + |w|][i] == s[k + i];
    }
  }

  /** Concatenation regrouped; calling this hands the solver the one
      regrouping a proof needs. */
  lemma Assoc3<T>(a: seq<T>, b: seq<T>, c: seq<T>)
    ensures a + b + c == a + (b + c)
  {
  }

  lemma Assoc5<T>(a: seq<T>, b: seq<T>, c: seq<T>, d: seq<T>, e: seq<T>)
    ensures a + b + c + d + e == a + (b + c + d + e)
  {
  }

  /** `s.replace(c, "")`: every occurrence of `c` deleted, the rest kept
      in order. */
  function Delete(s: string, c: char): (r: string)
    ensures |r| <= |s|
    ensures c !in r
  {
    if s == [] then []
    else (if s[0] == c then [] else [s[0]]) + Delete(s[1..], c)
  }

  /** `Delete` removes exactly the occurrences of `c`. */
  lemma {:induction false} DeleteMembers(s: string, c: char)
    ensures forall x :: x in Delete(s, c) <==> x in s && x != c
  {
    if s != [] {
      DeleteMembers(s[1..], c);
      assert s == [s[0]] + s[1..];
    }
  }

  /** `s.replace(a, b)` for single characters: a position-wise substitution. */
  function Replace(s: string, a: char, b: char): (r: string)
    ensures |r| == |s|
    ensures forall i :: 0 <= i < |s| ==> r[i] == if s[i] == a then b else s[i]
  {
    if s == [] then [] else [if s[0] == a then b else s[0]] + Replace(s[1..], a, b)
  }

  /** `c.lower()` as far as ASCII letters go. */
  function LowerChar(c: char): char {
    if 'A' <= c <= 'Z' then (c as int + 32) as char else c
  }

  /** `s.lower()`: ASCII upper-case letters mapped to lower case. */
  function Lower(s: string): (r: string)
    ensures |r| == |s|
    ensures forall i :: 0 <= i < |s| ==> r[i] == LowerChar(s[i])
  {
    if s == [] then [] else [LowerChar(s[0])] + Lower(s[1..])
  }

  /** `c.upper()` for the ASCII and Latin-1 lower-case letters that map to a
      single upper-case letter (a-z and à-þ except ÷). */
  function UpperChar(c: char): char {
    var n := c as int;
    if ('a' as int <= n <= 'z' as int) || (0xE0 <= n <= 0xFE && n != 0xF7)
    then (n - 32) as char else c
  }

  /** `s.upper()` over the letters `UpperChar` covers. */
  function Upper(s: string): (r: string)
    ensures |r| == |s|
    ensures forall i :: 0 <= i < |s| ==> r[i] == UpperChar(s[i])
  {
    if s == [] then [] else [UpperChar(s[0])] + Upper(s[1..])
  }

  predicate IsDigit(c: char) {
    '0' <= c <= '9'
  }

  /** `str(n)` for a natural number: its decimal digits, most significant
      first, without leading zeros. */
  function NatToString(n: nat): (r: string)
    ensures r != []
    ensures forall i :: 0 <= i < |r| ==> IsDigit(r[i])
    ensures r[0] == '0' ==> n == 0
    decreases n
  {
    var d := ['0' + (n % 10) as char];
    if n < 10 then d else NatToString(n / 10) + d
  }

  /** The value of a string of decimal digits. */
  function DigitsValue(s: string): nat
    requires forall i :: 0 <= i < |s| ==> IsDigit(s[i])
  {
    if s == [] then 0
    else
      var last := s[|s| - 1];
      assert IsDigit(last);
      10 * DigitsValue(s[..|s| - 1]) + (last as int - '0' as int)
  }

  /** Reading back the digits `NatToString` writes gives the number again. */
  lemma {:induction false} NatToStringRoundTrip(n: nat)
    ensures DigitsValue(NatToString(n)) == n
    decreases n
  {
    var r := NatToString(n);
    if n >= 10 {
      NatToStringRoundTrip(n / 10);
      assert r[..|r| - 1] == NatToString(n / 10);
    }
  }
}
