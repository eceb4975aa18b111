/** String helpers shared by the backend (Python `str`) and the frontend
    (JavaScript `String`) models.  Strings are sequences of characters; case
    mapping covers the ASCII letters only. */
module Text {

  predicate IsUpper(c: char) { 'A' <= c <= 'Z' }
  predicate IsLower(c: char) { 'a' <= c <= 'z' }
  predicate IsDigit(c: char) { '0' <= c <= '9' }

  /** JavaScript's regular-expression `\w` class: ASCII letters, digits, `_`. */
  predicate IsWordChar(c: char) { IsUpper(c) || IsLower(c) || IsDigit(c) || c == '_' }

  function LowerChar(c: char): char {
    if IsUpper(c) then (c as int + 32) as char else c
  }

  function UpperChar(c: char): char {
    if IsLower(c) then (c as int - 32) as char else c
  }

  /** `s.lower()` / `s.toLowerCase()`. */
  function Lower(s: string): string {
    seq(|s|, i requires 0 <= i < |s| => LowerChar(s[i]))
  }

  /** `s.replace(/x/g, y)` for a single character `x`. */
  function ReplaceChar(s: string, x: char, y: char): string {
    seq(|s|, i requires 0 <= i < |s| => if s[i] == x then y else s[i])
  }

  /** `s.startswith(p)` / `s.startsWith(p)`. */
  predicate StartsWith(s: string, p: string) {
    |p| <= |s| && s[..|p|] == p
  }

  /** `p in s` / `s.includes(p)`: `p` occurs in `s` as a contiguous substring. */
  predicate Contains(s: string, p: string) {
    exists i :: 0 <= i <= |s| && OccursAt(s, p, i)
  }

  /** `p` occurs in `s` starting at position `i`. */
  predicate OccursAt(s: string, p: string, i: nat) {
    i + |p| <= |s| && s[i..i + |p|] == p
  }

  /** Every character of a substring is a character of the whole string. */
  lemma ContainsKeepsChars(s: string, p: string, c: char)
    requires Contains(s, p) && c in p
    ensures c in s
  {
    var i :| 0 <= i <= |s| && OccursAt(s, p, i);
    var j :| 0 <= j < |p| && p[j] == c;
    assert s[i + j] == s[i..i + |p|][j];
  }

  /** A string that lacks some character of `p` cannot contain `p`. */
  lemma MissingCharExcludes(s: string, p: string, c: char)
    requires c in p && c !in s
    ensures !Contains(s, p)
  {
    if Contains(s, p) {
      ContainsKeepsChars(s, p, c);
    }
  }

  /** Python's `str.isspace()` on the ASCII range plus NEL and NO-BREAK SPACE. */
  predicate IsSpace(c: char) {
    (9 <= c as int <= 13) || (28 <= c as int <= 32) || c as int == 0x85 || c as int == 0xA0
  }

  /** Number of leading whitespace characters. */
  function LeadingSpaces(s: string): (n: nat)
    ensures n <= |s|
    ensures forall k :: 0 <= k < n ==> IsSpace(s[k])
    ensures n < |s| ==> !IsSpace(s[n])
  {
    if |s| > 0 && IsSpace(s[0]) then 1 + LeadingSpaces(s[1..]) else 0
  }

  /** Number of trailing whitespace characters. */
  function TrailingSpaces(s: string): (n: nat)
    ensures n <= |s|
    ensures forall k :: |s| - n <= k < |s| ==> IsSpace(s[k])
    ensures n < |s| ==> !IsSpace(s[|s| - n - 1])
  {
    if |s| > 0 && IsSpace(s[|s| - 1]) then 1 + TrailingSpaces(s[..|s| - 1]) else 0
  }

  /** `r` is `s[a..b]` and everything of `s` outside `a..b` is whitespace. */
  ghost predicate StrippedAt(s: string, r: string, a: nat, b: nat) {
    a <= b <= |s| && r == s[a..b]
    && (forall k :: 0 <= k < a ==> IsSpace(s[k]))
    && (forall k :: b <= k < |s| ==> IsSpace(s[k]))
  }

  /** Python's `s.strip()`: the substring left after removing whitespace at both ends. */
  function Trim(s: string): (r: string)
    ensures |r| > 0 ==> !IsSpace(r[0]) && !IsSpace(r[|r| - 1])
    ensures exists a, b :: StrippedAt(s, r, a, b)
  {
    var a := LeadingSpaces(s);
    var n := TrailingSpaces(s[a..]);
    CutEnds(s, a, n);
    s[a..|s| - n]
  }

  /** Cutting `a` leading and `n` trailing whitespace characters. */
  lemma CutEnds(s: string, a: nat, n: nat)
    requires a + n <= |s|
    requires forall k :: 0 <= k < a ==> IsSpace(s[k])
    requires forall k :: |s| - a - n <= k < |s| - a ==> IsSpace(s[a..][k])
    requires a + n < |s| ==> !IsSpace(s[a]) && !IsSpace(s[a..][|s| - a - n - 1])
    ensures StrippedAt(s, s[a..|s| - n], a, |s| - n)
    ensures a + n < |s| ==> !IsSpace(s[a..|s| - n][0]) && !IsSpace(s[a..|s| - n][|s| - n - a - 1])
  {
    forall k | |s| - n <= k < |s| ensures IsSpace(s[k]) {
      assert s[k] == s[a..][k - a];
    }
    if a + n < |s| {
      assert s[a..|s| - n][|s| - n - a - 1] == s[a..][|s| - a - n - 1];
    }
  }

  function DigitChar(d: nat): char
    requires d < 10
  {
    ('0' as int + d) as char
  }

  /** Decimal rendering of a natural number (`str(n)`, `String(n)`, `f"{n}"`). */
  function NatToString(n: nat): (r: string)
    ensures |r| >= 1
    ensures forall i :: 0 <= i < |r| ==> IsDigit(r[i])
  {
    if n < 10 then [DigitChar(n)] else NatToString(n / 10) + [DigitChar(n % 10)]
  }

  /** Decimal rendering of an integer, with a leading `-` when negative. */
  function IntToString(i: int): (r: string)
    ensures i >= 0 ==> r == NatToString(i)
    ensures i < 0 ==> r == "-" + NatToString(-i)
  {
    if i < 0 then "-" + NatToString(-i) else NatToString(i)
  }

  /** `sep.join(parts)` / `parts.join(sep)`. */
  function Join(parts: seq<string>, sep: string): string {
    if |parts| == 0 then ""
    else if |parts| == 1 then parts[0]
    else parts[0] + sep + Join(parts[1..], sep)
  }

  /** A join of a non-empty list contains each part's characters; in particular it is
      empty only when it joins one empty part. */
  lemma {:induction false} JoinKeepsChar(parts: seq<string>, sep: string, j: nat, c: char)
    requires j < |parts| && c in parts[j]
    ensures c in Join(parts, sep)
  {
    if |parts| > 1 {
      if j == 0 {
        assert Join(parts, sep) == parts[0] + (sep + Join(parts[1..], sep));
      } else {
        JoinKeepsChar(parts[1..], sep, j - 1, c);
        assert Join(parts, sep) == (parts[0] + sep) + Join(parts[1..], sep);
      }
    }
  }

  /** The last character of a rendering is the last decimal digit. */
  lemma LastDigit(n: nat)
    ensures NatToString(n)[|NatToString(n)| - 1] == DigitChar(n % 10)
  {
  }

  /** Consecutive numbers render differently (they differ in the last digit). */
  lemma SuccessorRendersDifferently(n: nat)
    ensures NatToString(n) != NatToString(n + 1)
  {
    LastDigit(n);
    LastDigit(n + 1);
    assert (n + 1) % 10 != n % 10;
    assert DigitChar((n + 1) % 10) != DigitChar(n % 10);
  }
}
