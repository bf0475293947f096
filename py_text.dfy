/**
 * The parts of Python's `str` that the triage code relies on: `isspace`,
 * `strip`, ASCII case folding (standing in for `lower()` and `re.IGNORECASE`),
 * the `\w` word characters used by `\b`, and the substring test `kw in msg`.
 */
module PyText {

  /** `c.isspace()`: the characters Python treats as whitespace (also `\s` in `re`). */
  predicate IsSpace(c: char) {
    || c == ' '
    || ('\t' <= c <= '\r')              // \t \n \v \f \r
    || ('\U{1c}' <= c <= '\U{1f}')      // file, group, record and unit separators
    || c == '\U{85}' || c == '\U{a0}' || c == '\U{1680}'
    || ('\U{2000}' <= c <= '\U{200a}')
    || c == '\U{2028}' || c == '\U{2029}' || c == '\U{202f}' || c == '\U{205f}' || c == '\U{3000}'
  }

  /** Every character is whitespace; for Python, `not s or not s.strip()`. */
  predicate IsBlank(s: string) {
    forall k | 0 <= k < |s| :: IsSpace(s[k])
  }

  /**
   * Where `s.lstrip()` starts: the first index at or after `i` that holds no
   * whitespace, or `|s|` when there is none.
   */
  function SkipSpaces(s: string, i: nat): (j: nat)
    requires i <= |s|
    ensures i <= j <= |s|
    ensures forall k | i <= k < j :: IsSpace(s[k])
    ensures j < |s| ==> !IsSpace(s[j])
    decreases |s| - i
  {
    if i < |s| && IsSpace(s[i]) then SkipSpaces(s, i + 1) else i
  }

  /**
   * Where `s[lo..j].rstrip()` ends: `j` moved back over trailing whitespace,
   * but not past `lo`.
   */
  function TrimSpaces(s: string, lo: nat, j: nat): (e: nat)
    requires lo <= j <= |s|
    ensures lo <= e <= j
    ensures forall k | e <= k < j :: IsSpace(s[k])
    ensures e > lo ==> !IsSpace(s[e - 1])
    decreases j
  {
    if j > lo && IsSpace(s[j - 1]) then TrimSpaces(s, lo, j - 1) else j
  }

  /**
   * `s.strip()`: `s` with its leading and trailing whitespace removed; it
   * neither starts nor ends with whitespace, and it is empty exactly when `s`
   * is blank.
   */
  function Strip(s: string): (r: string)
    ensures |r| <= |s|
    ensures r != [] ==> !IsSpace(r[0]) && !IsSpace(r[|r| - 1])
    ensures r == [] <==> IsBlank(s)
  {
    var start := SkipSpaces(s, 0);
    s[start..TrimSpaces(s, start, |s|)]
  }

  /** What `Strip` removes is whitespace on both sides of a contiguous piece of `s`. */
  lemma StripIsInfix(s: string) returns (i: nat)
    ensures i + |Strip(s)| <= |s|
    ensures Strip(s) == s[i..i + |Strip(s)|]
    ensures IsBlank(s[..i]) && IsBlank(s[i + |Strip(s)|..])
  {
    i := SkipSpaces(s, 0);
    var e := TrimSpaces(s, i, |s|);
    assert Strip(s) == s[i..e];
  }

  /** Stripping twice is stripping once. */
  lemma StripIdempotent(s: string)
    ensures Strip(Strip(s)) == Strip(s)
  {
  }

  /** A string that neither starts nor ends with whitespace is its own `strip()`. */
  lemma StripUnchanged(s: string)
    requires s != [] && !IsSpace(s[0]) && !IsSpace(s[|s| - 1])
    ensures Strip(s) == s
  {
  }

  /** ASCII lower-casing of one character. */
  function Lower(c: char): (d: char)
    ensures !('A' <= d <= 'Z')
    ensures 'A' <= c <= 'Z' ==> d as int == c as int + 32
    ensures !('A' <= c <= 'Z') ==> d == c
  {
    if 'A' <= c <= 'Z' then (c as int + 32) as char else c
  }

  /** `s.lower()`, for the ASCII letters. */
  function Fold(s: string): (r: string)
    ensures |r| == |s|
    ensures forall k | 0 <= k < |s| :: r[k] == Lower(s[k])
  {
    seq(|s|, k requires 0 <= k < |s| => Lower(s[k]))
  }

  /** A string without upper-case ASCII letters folds to itself. */
  lemma FoldLowerCase(s: string)
    requires forall k | 0 <= k < |s| :: !('A' <= s[k] <= 'Z')
    ensures Fold(s) == s
  {
  }

  /** Lower-casing twice is lower-casing once. */
  lemma FoldIdempotent(s: string)
    ensures Fold(Fold(s)) == Fold(s)
  {
  }

  /** The ASCII part of `\w`: letters, digits and the underscore. */
  predicate IsWordChar(c: char) {
    ('a' <= c <= 'z') || ('A' <= c <= 'Z') || ('0' <= c <= '9') || c == '_'
  }

  /** `needle` occurs in `haystack` starting at index `i`. */
  predicate OccursAt(haystack: string, needle: string, i: int) {
    0 <= i <= |haystack| - |needle| && haystack[i..i + |needle|] == needle
  }

  /** `needle in haystack` on strings. */
  predicate Contains(haystack: string, needle: string) {
    exists i | 0 <= i <= |haystack| :: OccursAt(haystack, needle, i)
  }

  /** Whatever contains a string contains each of its substrings. */
  lemma ContainsInfix(haystack: string, needle: string, i: nat, j: nat)
    requires i <= j <= |needle| && Contains(haystack, needle)
    ensures Contains(haystack, needle[i..j])
  {
    var p :| 0 <= p <= |haystack| && OccursAt(haystack, needle, p);
    forall k | 0 <= k < j - i ensures haystack[p + i..p + j][k] == needle[i..j][k] {
      assert haystack[p + i + k] == haystack[p..p + |needle|][i + k];
    }
    assert OccursAt(haystack, needle[i..j], p + i);
  }
}
