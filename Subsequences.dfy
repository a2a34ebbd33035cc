/** Order-preserving selections of sequence elements. */
module Subsequences {
  /**
   * `xs` is obtained from `ys` by deleting elements: what is kept keeps its
   * relative order, and nothing new appears.
   */
  ghost predicate IsSubsequence<T>(xs: seq<T>, ys: seq<T>)
    decreases |ys|
  {
    if ys == [] then xs == []
    else (xs != [] && xs[0] == ys[0] && IsSubsequence(xs[1..], ys[1..])) || IsSubsequence(xs, ys[1..])
  }

  /** The empty sequence is a subsequence of every sequence. */
  lemma {:induction false} EmptyIsSubsequence<T>(ys: seq<T>)
    ensures IsSubsequence([], ys)
  {
    if ys != [] {
      EmptyIsSubsequence(ys[1..]);
    }
  }
}
