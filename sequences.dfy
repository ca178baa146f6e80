/**
 * Order on filtered sequences: a query without `ORDER BY` returns the rows
 * it keeps in table order, so its result is a subsequence of the table.
 */
module Sequences {

  /** `r` is `s` with some elements left out and the rest kept in their order. */
  predicate Subsequence<T(==)>(r: seq<T>, s: seq<T>)
    decreases |s|
  {
    r == [] || (s != [] && if r[0] == s[0] then Subsequence(r[1..], s[1..]) else Subsequence(r, s[1..]))
  }

  /** Leaving out an element appended to the sequence keeps a subsequence. */
  lemma {:induction false} SubsequenceSkipLast<T>(r: seq<T>, s: seq<T>, x: T)
    requires Subsequence(r, s)
    ensures Subsequence(r, s + [x])
  {
    if r != [] {
      assert (s + [x])[0] == s[0];
      assert (s + [x])[1..] == s[1..] + [x];
      if r[0] == s[0] {
        SubsequenceSkipLast(r[1..], s[1..], x);
      } else {
        SubsequenceSkipLast(r, s[1..], x);
      }
    }
  }

  /** Keeping an element appended to the sequence keeps a subsequence. */
  lemma {:induction false} SubsequenceKeepLast<T>(r: seq<T>, s: seq<T>, x: T)
    requires Subsequence(r, s)
    ensures Subsequence(r + [x], s + [x])
    decreases |s|
  {
    assert (r + [x])[0] == if r == [] then x else r[0];
    if r == [] {
      assert r + [x] == [x];
      if s == [] {
        assert Subsequence([x][1..], ([] + [x])[1..]);
      } else {
        assert (s + [x])[1..] == s[1..] + [x];
        if s[0] != x {
          SubsequenceKeepLast(r, s[1..], x);
        }
      }
    } else {
      assert (s + [x])[0] == s[0];
      assert (s + [x])[1..] == s[1..] + [x];
      assert (r + [x])[1..] == r[1..] + [x];
      if r[0] == s[0] {
        SubsequenceKeepLast(r[1..], s[1..], x);
      } else {
        SubsequenceKeepLast(r, s[1..], x);
      }
    }
  }
}
