/**
 * Sequence vocabulary shared by the model: Python's `s[-n:]`, list
 * comprehensions with a condition, sub-sequences and duplicate-freedom.
 */
module Seqs {

  function Min(a: int, b: int): int { if a <= b then a else b }

  /** `s[-n:]` for `n >= 1`: the last `n` elements of `s`, or all of it when it is shorter. */
  function Last<T>(s: seq<T>, n: nat): (r: seq<T>)
    ensures |r| == Min(|s|, n)
    ensures r == s[|s| - |r|..]
  {
    if |s| <= n then s else s[|s| - n..]
  }

  /** A non-empty sequence is its front followed by its last element. */
  lemma SplitLast<T>(s: seq<T>)
    requires s != []
    ensures s == s[..|s| - 1] + [s[|s| - 1]]
  {
  }

  /** Appending to the last `n` elements gives the last `n + 1` of the longer sequence. */
  lemma LastAppend<T>(s: seq<T>, x: T, n: nat)
    ensures Last(s, n) + [x] == Last(s + [x], n + 1)
  {
    assert (s + [x])[|s + [x]| - Min(|s|, n) - 1..] == s[|s| - Min(|s|, n)..] + [x];
  }

  /** Trimming back to `n` after an append keeps the last `n` of the whole history. */
  lemma LastOfLastAppend<T>(s: seq<T>, x: T, n: nat)
    requires n > 0
    ensures Last(Last(s, n) + [x], n) == Last(s + [x], n)
  {
    LastAppend(s, x, n);
    var w := Last(s + [x], n + 1);
    assert w[|w| - Min(|w|, n)..] == (s + [x])[|s + [x]| - Min(|s| + 1, n)..];
  }

  /** `[x for x in s if keep(x)]`. */
  function Filter<T>(s: seq<T>, keep: T -> bool): (r: seq<T>)
    ensures |r| <= |s|
    decreases |s|
  {
    if s == [] then []
    else Filter(s[..|s| - 1], keep) + (if keep(s[|s| - 1]) then [s[|s| - 1]] else [])
  }

  /** Filtering a sequence extended by one element. */
  lemma FilterSnoc<T>(s: seq<T>, x: T, keep: T -> bool)
    ensures Filter(s + [x], keep) == Filter(s, keep) + (if keep(x) then [x] else [])
  {
    assert (s + [x])[..|s|] == s;
  }

  /** An element survives the filter exactly when it is in `s` and is kept. */
  lemma {:induction false} FilterMembership<T>(s: seq<T>, keep: T -> bool, x: T)
    ensures x in Filter(s, keep) <==> x in s && keep(x)
    decreases |s|
  {
    if s != [] {
      var init := s[..|s| - 1];
      FilterMembership(init, keep, x);
      assert s == init + [s[|s| - 1]];
    }
  }

  /** `[f(x) for x in s]`. */
  function MapSeq<T, U>(s: seq<T>, f: T -> U): (r: seq<U>)
    ensures |r| == |s|
    ensures forall k | 0 <= k < |s| :: r[k] == f(s[k])
  {
    seq(|s|, k requires 0 <= k < |s| => f(s[k]))
  }

  /** Mapping a sequence extended by one element. */
  lemma MapSeqSnoc<T, U>(s: seq<T>, x: T, f: T -> U)
    ensures MapSeq(s + [x], f) == MapSeq(s, f) + [f(x)]
  {
  }

  /** `idx` picks, in increasing positions of `b`, the elements of `a`. */
  ghost predicate Embeds<T>(idx: seq<nat>, a: seq<T>, b: seq<T>) {
    && |idx| == |a|
    && (forall k | 0 <= k < |idx| :: idx[k] < |b| && a[k] == b[idx[k]])
    && (forall k, l | 0 <= k < l < |idx| :: idx[k] < idx[l])
  }

  /** `a` is `b` with some elements left out, the rest kept in their order. */
  ghost predicate IsSubsequence<T>(a: seq<T>, b: seq<T>) {
    exists idx :: Embeds(idx, a, b)
  }

  /** No element occurs twice. */
  predicate Distinct<T(==)>(s: seq<T>) {
    forall i, j | 0 <= i < j < |s| :: s[i] != s[j]
  }

  /** The positions in `s` of the elements the filter keeps, in increasing order. */
  lemma {:induction false} FilterEmbedding<T>(s: seq<T>, keep: T -> bool) returns (idx: seq<nat>)
    ensures Embeds(idx, Filter(s, keep), s)
    decreases |s|
  {
    if s == [] {
      idx := [];
    } else {
      var init, x := s[..|s| - 1], s[|s| - 1];
      var prev := FilterEmbedding(init, keep);
      var kept := Filter(init, keep);
      assert Filter(s, keep) == kept + (if keep(x) then [x] else []);
      if keep(x) {
        idx := prev + [|s| - 1];
        forall k | 0 <= k < |kept| ensures prev[k] < |s| && Filter(s, keep)[k] == s[prev[k]] {
          assert s[prev[k]] == init[prev[k]];
        }
      } else {
        idx := prev;
        forall k | 0 <= k < |kept| ensures prev[k] < |s| && Filter(s, keep)[k] == s[prev[k]] {
          assert s[prev[k]] == init[prev[k]];
        }
      }
    }
  }

  /** The filter keeps the survivors in their original order. */
  lemma FilterIsSubsequence<T>(s: seq<T>, keep: T -> bool)
    ensures IsSubsequence(Filter(s, keep), s)
  {
    var idx := FilterEmbedding(s, keep);
  }

  /** A sub-sequence of a duplicate-free sequence is duplicate-free. */
  lemma SubsequenceOfDistinct<T>(a: seq<T>, b: seq<T>)
    requires IsSubsequence(a, b) && Distinct(b)
    ensures Distinct(a)
  {
    var idx: seq<nat> :| Embeds(idx, a, b);
    forall i, j | 0 <= i < j < |a| ensures a[i] != a[j] {
      assert idx[i] < idx[j];
    }
  }

  /** Mapping both sides preserves the sub-sequence relation. */
  lemma SubsequenceMap<T, U>(a: seq<T>, b: seq<T>, f: T -> U)
    requires IsSubsequence(a, b)
    ensures IsSubsequence(MapSeq(a, f), MapSeq(b, f))
  {
    var idx: seq<nat> :| Embeds(idx, a, b);
    assert Embeds(idx, MapSeq(a, f), MapSeq(b, f));
  }
}
