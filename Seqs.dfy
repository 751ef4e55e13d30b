/** Order-preserving subsequences. */
module Seqs {

  /** `a` is obtained from `b` by deleting elements, keeping the order of the rest.
      Matches from the back, as the model's list-building functions do. */
  ghost predicate Subseq<T>(a: seq<T>, b: seq<T>)
    decreases |b|
  {
    a == [] ||
    (b != [] &&
     ((a[|a| - 1] == b[|b| - 1] && Subseq(a[..|a| - 1], b[..|b| - 1])) ||
      Subseq(a, b[..|b| - 1])))
  }

  /** A subsequence is no longer than the sequence it is taken from. */
  lemma {:induction false} SubseqLength<T>(a: seq<T>, b: seq<T>)
    requires Subseq(a, b)
    ensures |a| <= |b|
    decreases |b|
  {
    if a != [] {
      if a[|a| - 1] == b[|b| - 1] && Subseq(a[..|a| - 1], b[..|b| - 1]) {
        SubseqLength(a[..|a| - 1], b[..|b| - 1]);
      } else {
        SubseqLength(a, b[..|b| - 1]);
      }
    }
  }

  /** Every element of a subsequence occurs in the sequence. */
  lemma {:induction false} SubseqMembers<T>(a: seq<T>, b: seq<T>, x: T)
    requires Subseq(a, b) && x in a
    ensures x in b
    decreases |b|
  {
    var init := b[..|b| - 1];
    assert b == init + [b[|b| - 1]];
    if a[|a| - 1] == b[|b| - 1] && Subseq(a[..|a| - 1], init) {
      assert a == a[..|a| - 1] + [a[|a| - 1]];
      if x != a[|a| - 1] {
        SubseqMembers(a[..|a| - 1], init, x);
      }
    } else {
      SubseqMembers(a, init, x);
    }
  }

  /** Dropping the new last element keeps a subsequence a subsequence. */
  lemma SubseqExtendRight<T>(a: seq<T>, b: seq<T>, x: T)
    requires Subseq(a, b)
    ensures Subseq(a, b + [x])
  {
    assert (b + [x])[..|b|] == b;
  }

  /** Keeping the new last element on both sides keeps a subsequence a subsequence. */
  lemma SubseqExtendBoth<T>(a: seq<T>, b: seq<T>, x: T)
    requires Subseq(a, b)
    ensures Subseq(a + [x], b + [x])
  {
    assert (a + [x])[..|a|] == a;
    assert (b + [x])[..|b|] == b;
  }

  /** Every sequence is a subsequence of itself. */
  lemma {:induction false} SubseqReflexive<T>(a: seq<T>)
    ensures Subseq(a, a)
    decreases |a|
  {
    if a != [] {
      SubseqReflexive(a[..|a| - 1]);
    }
  }
}
