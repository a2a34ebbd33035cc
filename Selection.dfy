/**
 * The checked-protocol list of the form and its toggle (`handleProtocolChange`):
 * an id already in the list is removed, every occurrence of it; any other id is
 * appended at the end.
 */
module Selection {
  import opened Subsequences

  /** No id occurs twice. */
  predicate Distinct(s: seq<int>) {
    forall i, j | 0 <= i < j < |s| :: s[i] != s[j]
  }

  /** `s.filter((id) => id !== p)`. */
  function Without(s: seq<int>, p: int): (r: seq<int>)
    ensures p !in r
    ensures forall q | q != p :: q in r <==> q in s
    ensures |r| <= |s|
  {
    if s == [] then [] else (if s[0] == p then [] else [s[0]]) + Without(s[1..], p)
  }

  /** The updater passed to `setSelectedProtocols` by `handleProtocolChange(p)`. */
  function Toggle(s: seq<int>, p: int): (r: seq<int>)
    ensures p in r <==> p !in s
    ensures forall q | q != p :: q in r <==> q in s
  {
    if p in s then Without(s, p) else s + [p]
  }

  lemma {:induction false} WithoutIsSubsequence(s: seq<int>, p: int)
    ensures IsSubsequence(Without(s, p), s)
  {
    if s != [] {
      WithoutIsSubsequence(s[1..], p);
      var r := Without(s, p);
      if s[0] != p {
        assert r[1..] == Without(s[1..], p);
      } else {
        assert r == Without(s[1..], p);
      }
    }
  }

  /** Removal drops every copy of `p` and keeps the count of every other id. */
  lemma {:induction false} WithoutCounts(s: seq<int>, p: int)
    ensures multiset(Without(s, p)) == multiset(s)[p := 0]
  {
    if s != [] {
      WithoutCounts(s[1..], p);
      assert s == [s[0]] + s[1..];
    }
  }

  lemma {:induction false} WithoutAbsent(s: seq<int>, p: int)
    requires p !in s
    ensures Without(s, p) == s
  {
    if s != [] {
      WithoutAbsent(s[1..], p);
      assert s == [s[0]] + s[1..];
    }
  }

  lemma {:induction false} WithoutAppend(a: seq<int>, b: seq<int>, p: int)
    ensures Without(a + b, p) == Without(a, p) + Without(b, p)
  {
    if a != [] {
      assert (a + b)[1..] == a[1..] + b;
      WithoutAppend(a[1..], b, p);
    } else {
      assert a + b == b;
    }
  }

  lemma {:induction false} WithoutKeepsDistinct(s: seq<int>, p: int)
    requires Distinct(s)
    ensures Distinct(Without(s, p))
  {
    if s != [] {
      WithoutKeepsDistinct(s[1..], p);
      var rest := Without(s[1..], p);
      assert s[0] !in s[1..] by {
        forall j | 0 <= j < |s[1..]| ensures s[1..][j] != s[0] {
          assert s[1..][j] == s[j + 1];
        }
      }
      assert s[0] !in rest;
    }
  }

  /**
   * Toggling `p` changes nothing but `p`: once every `p` is erased, the list
   * before and the list after are identical, so every other id keeps its
   * membership, its number of occurrences and its position relative to the rest.
   */
  lemma ToggleKeepsOthers(s: seq<int>, p: int)
    ensures Without(Toggle(s, p), p) == Without(s, p)
  {
    if p in s {
      WithoutAbsent(Without(s, p), p);
    } else {
      WithoutAppend(s, [p], p);
      assert Without([p], p) == [];
    }
  }

  /** The toggled list never invents an id and never reorders what it keeps. */
  lemma ToggleCounts(s: seq<int>, p: int)
    ensures p in s ==> multiset(Toggle(s, p)) == multiset(s)[p := 0]
    ensures p in s ==> IsSubsequence(Toggle(s, p), s)
    ensures p !in s ==> multiset(Toggle(s, p)) == multiset(s) + multiset{p}
  {
    WithoutCounts(s, p);
    WithoutIsSubsequence(s, p);
  }

  /** A list without repeats stays without repeats. */
  lemma ToggleKeepsDistinct(s: seq<int>, p: int)
    requires Distinct(s)
    ensures Distinct(Toggle(s, p))
  {
    if p in s {
      WithoutKeepsDistinct(s, p);
    }
  }

  /** Unchecking a box that was just checked restores the list exactly. */
  lemma ToggleTwiceAbsent(s: seq<int>, p: int)
    requires p !in s
    ensures Toggle(Toggle(s, p), p) == s
  {
    WithoutAppend(s, [p], p);
    WithoutAbsent(s, p);
    assert Without([p], p) == [];
  }

  /** Checking a box that was just unchecked moves its id to the end of the list. */
  lemma ToggleTwicePresent(s: seq<int>, p: int)
    requires p in s
    ensures Toggle(Toggle(s, p), p) == Without(s, p) + [p]
  {
  }
}
