/**
 * The few JavaScript string primitives that the profile code relies on:
 * `String.prototype.trim`, `toLowerCase`, `startsWith` and `includes`,
 * and the character classes `\s` and `\d` of its regular expressions.
 */
module Strings {

  /** WhiteSpace or LineTerminator in the sense of ECMA-262: exactly the
      characters that `trim` removes and that the regular-expression class
      `\s` matches (the Zs category is written out as of Unicode 15). */
  predicate IsJsWhitespace(c: char) {
    || c == '\t' || c == '\n' || c == '\U{000B}' || c == '\U{000C}' || c == '\r'
    || c == ' ' || c == '\U{00A0}' || c == '\U{1680}'
    || ('\U{2000}' <= c <= '\U{200A}')
    || c == '\U{2028}' || c == '\U{2029}' || c == '\U{202F}' || c == '\U{205F}'
    || c == '\U{3000}' || c == '\U{FEFF}'
  }

  /** The class `\d`: ASCII decimal digits only. */
  predicate IsDigit(c: char) {
    '0' <= c <= '9'
  }

  predicate AllWhitespace(s: string) {
    forall k :: 0 <= k < |s| ==> IsJsWhitespace(s[k])
  }

  /** Every character of `s` outside the index range `[i, j)` is whitespace. */
  predicate WhitespaceOutside(s: string, i: int, j: int) {
    forall k :: 0 <= k < |s| && !(i <= k < j) ==> IsJsWhitespace(s[k])
  }

  /** `r` occurs in `s` starting at index `i`. */
  predicate IsInfixAt(r: string, s: string, i: int) {
    0 <= i && i + |r| <= |s| && s[i..i + |r|] == r
  }

  /** The first index at or after `i` whose character is not whitespace, or
      `|s|` when there is none. */
  function SkipWhitespace(s: string, i: nat): (j: nat)
    requires i <= |s|
    ensures i <= j <= |s|
    ensures forall k :: i <= k < j ==> IsJsWhitespace(s[k])
    ensures j < |s| ==> !IsJsWhitespace(s[j])
    decreases |s| - i
  {
    if i < |s| && IsJsWhitespace(s[i]) then SkipWhitespace(s, i + 1) else i
  }

  /** The index just past the last character before `j`, and at or after
      `lo`, that is not whitespace, or `lo` when there is none. */
  function SkipWhitespaceBack(s: string, lo: nat, j: nat): (e: nat)
    requires lo <= j <= |s|
    ensures lo <= e <= j
    ensures forall k :: e <= k < j ==> IsJsWhitespace(s[k])
    ensures e > lo ==> !IsJsWhitespace(s[e - 1])
    decreases j
  {
    if j > lo && IsJsWhitespace(s[j - 1]) then SkipWhitespaceBack(s, lo, j - 1) else j
  }

  /** `String.prototype.trim`: what lies between the leading and the
      trailing whitespace. */
  function Trim(s: string): (r: string)
    ensures r != [] ==> !IsJsWhitespace(r[0]) && !IsJsWhitespace(r[|r| - 1])
  {
    var i := SkipWhitespace(s, 0);
    s[i..SkipWhitespaceBack(s, i, |s|)]
  }

  /** `trim` removes whitespace at both ends and nothing else: its result is
      an infix of the input with only whitespace around it, and it is empty
      exactly when the input is all whitespace. */
  lemma TrimSpec(s: string)
    ensures exists i :: IsInfixAt(Trim(s), s, i) && WhitespaceOutside(s, i, i + |Trim(s)|)
    ensures Trim(s) == [] <==> AllWhitespace(s)
  {
    var i := SkipWhitespace(s, 0);
    var e := SkipWhitespaceBack(s, i, |s|);
    assert IsInfixAt(Trim(s), s, i);
    if Trim(s) != [] {
      assert s[i] == Trim(s)[0];
    }
  }

  /** `trim` is idempotent. */
  lemma TrimIdempotent(s: string)
    ensures Trim(Trim(s)) == Trim(s)
  {
    var r := Trim(s);
    if r != [] {
      TrimOfNonWhiteEnds(r);
    }
  }

  /** A string that begins and ends with non-whitespace is its own trim. */
  lemma TrimOfNonWhiteEnds(s: string)
    requires s != [] && !IsJsWhitespace(s[0]) && !IsJsWhitespace(s[|s| - 1])
    ensures Trim(s) == s
  {
    assert SkipWhitespace(s, 0) == 0;
    assert SkipWhitespaceBack(s, 0, |s|) == |s|;
  }

  /** After leading whitespace, `trim` keeps every prefix that starts and
      ends with non-whitespace. */
  lemma TrimAfterWhitespaceKeepsPrefix(w: string, s: string, n: int)
    requires AllWhitespace(w) && 0 < n <= |s|
    requires !IsJsWhitespace(s[0]) && !IsJsWhitespace(s[n - 1])
    ensures n <= |Trim(w + s)| && Trim(w + s)[..n] == s[..n]
  {
    var x := w + s;
    var i := SkipWhitespace(x, 0);
    assert x[|w|] == s[0];
    assert i == |w|;
    var e := SkipWhitespaceBack(x, i, |x|);
    assert x[|w| + n - 1] == s[n - 1];
    assert e >= |w| + n;
    assert Trim(x) == x[|w|..e];
    assert forall k :: 0 <= k < n ==> Trim(x)[k] == s[k];
  }

  /** True when `s` is empty or trims to the empty string. */
  predicate IsBlank(s: string) {
    Trim(s) == []
  }

  /** `toLowerCase` on one character, for the ASCII letters. */
  function LowerChar(c: char): char {
    if 'A' <= c <= 'Z' then (c as int + 32) as char else c
  }

  /** `toLowerCase`, restricted to the ASCII letters. */
  function ToLower(s: string): string {
    seq(|s|, k requires 0 <= k < |s| => LowerChar(s[k]))
  }

  lemma ToLowerAppend(a: string, b: string)
    ensures ToLower(a + b) == ToLower(a) + ToLower(b)
  {
  }

  /** `s.startsWith(p)`, compared character by character. */
  predicate StartsWith(s: string, p: string) {
    p == [] || (s != [] && s[0] == p[0] && StartsWith(s[1..], p[1..]))
  }

  /** `s.includes(p)`: `p` starts at some suffix of `s`. */
  predicate Includes(s: string, p: string) {
    StartsWith(s, p) || (s != [] && Includes(s[1..], p))
  }

  lemma {:induction false} StartsWithIff(s: string, p: string)
    ensures StartsWith(s, p) <==> |p| <= |s| && s[..|p|] == p
  {
    if p != [] && s != [] {
      StartsWithIff(s[1..], p[1..]);
      if |p| <= |s| && s[..|p|] == p {
        assert s[1..][..|p| - 1] == p[1..];
      }
      if StartsWith(s, p) {
        assert s[..|p|] == [s[0]] + s[1..][..|p| - 1];
      }
    }
  }

  /** `includes` means what it says: `p` is an infix of `s`. */
  lemma {:induction false} IncludesIff(s: string, p: string)
    ensures Includes(s, p) <==> exists i :: IsInfixAt(p, s, i)
  {
    StartsWithIff(s, p);
    if StartsWith(s, p) {
      assert IsInfixAt(p, s, 0);
    } else if s != [] {
      IncludesIff(s[1..], p);
      if i :| IsInfixAt(p, s, i) {
        assert i > 0;
        assert s[1..][i - 1..i - 1 + |p|] == s[i..i + |p|];
        assert IsInfixAt(p, s[1..], i - 1);
      }
      if Includes(s[1..], p) {
        var i :| IsInfixAt(p, s[1..], i);
        assert s[i + 1..i + 1 + |p|] == s[1..][i..i + |p|];
        assert IsInfixAt(p, s, i + 1);
      }
    }
  }

  /** Whatever contains `p` contains every infix of `p`. */
  lemma IncludesInfix(s: string, p: string, j: int, k: int)
    requires 0 <= j <= k <= |p|
    requires Includes(s, p)
    ensures Includes(s, p[j..k])
  {
    IncludesIff(s, p);
    IncludesIff(s, p[j..k]);
    var i :| IsInfixAt(p, s, i);
    var w := s[i..i + |p|];
    assert w[j..k] == s[i + j..i + k] by {
      forall m | 0 <= m < k - j ensures w[j..k][m] == s[i + j..i + k][m] {
        assert w[j..k][m] == w[j + m];
      }
    }
    assert IsInfixAt(p[j..k], s, i + j);
  }

  /** Every character of a needle that is found occurs in the haystack. */
  lemma IncludesNeedsChar(s: string, p: string, j: int)
    requires 0 <= j < |p|
    requires Includes(s, p)
    ensures p[j] in s
  {
    IncludesInfix(s, p, j, j + 1);
    IncludesIff(s, p[j..j + 1]);
    var i :| IsInfixAt(p[j..j + 1], s, i);
    assert s[i] == s[i..i + 1][0];
  }

  /** A needle found in `a + b` whose first character does not occur in `a`
      is found in `b`. */
  lemma IncludesSkip(a: string, b: string, p: string)
    requires p != [] && p[0] !in a
    requires Includes(a + b, p)
    ensures Includes(b, p)
  {
    IncludesIff(a + b, p);
    IncludesIff(b, p);
    var s := a + b;
    var i :| IsInfixAt(p, s, i);
    assert s[i] == s[i..i + |p|][0];
    assert forall k :: 0 <= k < |a| ==> s[k] == a[k];
    assert i >= |a|;
    assert b[i - |a|..i - |a| + |p|] == s[i..i + |p|];
    assert IsInfixAt(p, b, i - |a|);
  }
}
