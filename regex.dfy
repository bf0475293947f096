/**
 * The fragment of Python's `re` that the triage patterns use: literal text,
 * `\b`, `\s*`, `.*`, concatenation and `|`. `re.search` succeeds when some
 * stretch of the text matches, so a pattern is given meaning by the spans it
 * matches rather than by a backtracking matcher.
 */
module Regex {
  import opened PyText

  datatype Regex =
    | Lit(text: string)             // the characters themselves
    | WordBoundary                  // \b
    | Spaces                        // \s*
    | AnyInLine                     // .*   (without re.DOTALL, '.' stops at '\n')
    | Cat(left: Regex, right: Regex)
    | Alt(left: Regex, right: Regex)

  /** `\b` holds between a word character and a non-word character (the ends count as non-word). */
  predicate IsBoundary(t: string, i: nat)
    requires i <= |t|
  {
    (i > 0 && IsWordChar(t[i - 1])) != (i < |t| && IsWordChar(t[i]))
  }

  /** `r` matches exactly `t[i..j]`. */
  predicate Spans(r: Regex, t: string, i: nat, j: nat)
    requires i <= j <= |t|
    decreases r
  {
    match r
    case Lit(s) => j - i == |s| && t[i..j] == s
    case WordBoundary => i == j && IsBoundary(t, i)
    case Spaces => forall k | i <= k < j :: IsSpace(t[k])
    case AnyInLine => forall k | i <= k < j :: t[k] != '\n'
    case Cat(a, b) => exists m: nat | i <= m <= j :: Spans(a, t, i, m) && Spans(b, t, m, j)
    case Alt(a, b) => Spans(a, t, i, j) || Spans(b, t, i, j)
  }

  /** `re.search(r, t)` finds a match. */
  predicate Search(r: Regex, t: string) {
    exists i: nat, j: nat | i <= j <= |t| :: Spans(r, t, i, j)
  }

  /**
   * `re.search(r, t, flags=re.IGNORECASE)` for a pattern written in lower
   * case: the text is folded first.
   */
  predicate SearchIgnoreCase(r: Regex, t: string) {
    Search(r, Fold(t))
  }

  /** With `re.IGNORECASE` the case of the text does not matter: lower-casing it first changes nothing. */
  lemma SearchIgnoresCase(r: Regex, t: string)
    ensures SearchIgnoreCase(r, Fold(t)) <==> SearchIgnoreCase(r, t)
  {
    FoldIdempotent(t);
  }

  /** Every character of `t` is drawn from `alphabet`. */
  predicate Within(t: string, alphabet: set<char>) {
    forall k | 0 <= k < |t| :: t[k] in alphabet
  }

  /**
   * A certificate that `r` matches nowhere in a text written over `alphabet`:
   * every literal that any match must contain has a character outside it.
   */
  predicate Excludes(r: Regex, alphabet: set<char>) {
    match r
    case Lit(s) => exists k | 0 <= k < |s| :: s[k] !in alphabet
    case Cat(a, b) => Excludes(a, alphabet) || Excludes(b, alphabet)
    case Alt(a, b) => Excludes(a, alphabet) && Excludes(b, alphabet)
    case _ => false
  }

  /** No span of a text over `alphabet` matches an excluded pattern. */
  lemma {:induction false} ExcludedNeverSpans(r: Regex, alphabet: set<char>, t: string, i: nat, j: nat)
    requires i <= j <= |t| && Within(t, alphabet) && Excludes(r, alphabet)
    ensures !Spans(r, t, i, j)
    decreases r
  {
    match r
    case Lit(s) =>
    case Cat(a, b) =>
      forall m: nat | i <= m <= j ensures !(Spans(a, t, i, m) && Spans(b, t, m, j)) {
        if Excludes(a, alphabet) {
          ExcludedNeverSpans(a, alphabet, t, i, m);
        } else {
          ExcludedNeverSpans(b, alphabet, t, m, j);
        }
      }
    case Alt(a, b) =>
      ExcludedNeverSpans(a, alphabet, t, i, j);
      ExcludedNeverSpans(b, alphabet, t, i, j);
  }

  /** A pattern excluded by the alphabet of `t` is not found in `t`. */
  lemma ExcludedNeverMatches(r: Regex, alphabet: set<char>, t: string)
    requires Within(t, alphabet) && Excludes(r, alphabet)
    ensures !Search(r, t)
  {
    forall i: nat, j: nat | i <= j <= |t| ensures !Spans(r, t, i, j) {
      ExcludedNeverSpans(r, alphabet, t, i, j);
    }
  }

  /** A literal occurring in the text is found. */
  lemma FoundLiteral(s: string, t: string, i: nat)
    requires OccursAt(t, s, i)
    ensures Search(Lit(s), t)
  {
    assert Spans(Lit(s), t, i, i + |s|);
  }

  /** A search for a literal is the substring test `s in t`. */
  lemma SearchLiteralIsContains(s: string, t: string)
    ensures Search(Lit(s), t) <==> Contains(t, s)
  {
    if Search(Lit(s), t) {
      var i: nat, j: nat :| i <= j <= |t| && Spans(Lit(s), t, i, j);
      assert OccursAt(t, s, i);
    }
    if Contains(t, s) {
      var i :| 0 <= i <= |t| && OccursAt(t, s, i);
      FoundLiteral(s, t, i);
    }
  }
}
