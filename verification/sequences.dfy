/** Facts about plain sequences shared by the text, queue and pipe models. */
module Sequences {

  /** No value occurs at two positions of `s`. */
  predicate Distinct<T(==)>(s: seq<T>) {
    forall x, y :: 0 <= x < y < |s| ==> s[x] != s[y]
  }

  /** In a sequence without repeats every value is counted once if it
      occurs and not at all otherwise. */
  lemma {:induction false} DistinctCount<T>(s: seq<T>, v: T)
    requires Distinct(s)
    ensures multiset(s)[v] == if v in s then 1 else 0
  {
    if |s| > 0 {
      assert s == [s[0]] + s[1..];
      assert Distinct(s[1..]);
      DistinctCount(s[1..], v);
      assert s[0] !in s[1..];
    }
  }

  /** A value counted at most once does not occur at two positions, so a
      sequence with the same values as a sequence without repeats has no
      repeats either. */
  lemma CountedOnce<T>(s: seq<T>, x: nat, y: nat)
    requires x < y < |s| && multiset(s)[s[y]] <= 1
    ensures s[x] != s[y]
  {
    assert s == s[..y] + s[y..];
    assert multiset(s) == multiset(s[..y]) + multiset(s[y..]);
    assert s[y..][0] == s[y];
    assert s[..y][x] == s[x];
  }

  /** The first position of `v` in `s`. */
  function IndexOf<T(==)>(s: seq<T>, v: T): (i: nat)
    requires v in s
    ensures i < |s| && s[i] == v && v !in s[..i]
  {
    if s[0] == v then 0 else 1 + IndexOf(s[1..], v)
  }
}
