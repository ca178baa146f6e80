/**
 * Go's ordering of strings and `sort.Strings`, as far as the VNPay request
 * canonicalisation uses them.  Go compares strings byte by byte; on UTF-8
 * text that is the same order as comparing code points one by one, which is
 * what `StrLess` does on `seq<char>`.
 */
module KeyOrder {

  /** `a < b` on Go strings: lexicographic, a proper prefix comes first. */
  predicate StrLess(a: string, b: string)
  {
    if a == [] then b != []
    else if b == [] then false
    else a[0] < b[0] || (a[0] == b[0] && StrLess(a[1..], b[1..]))
  }

  lemma {:induction false} StrLessIrreflexive(a: string)
    ensures !StrLess(a, a)
  {
    if a != [] {
      StrLessIrreflexive(a[1..]);
    }
  }

  lemma {:induction false} StrLessAsymmetric(a: string, b: string)
    requires StrLess(a, b)
    ensures !StrLess(b, a)
  {
    if a != [] && b != [] && a[0] == b[0] {
      StrLessAsymmetric(a[1..], b[1..]);
    }
  }

  lemma {:induction false} StrLessTransitive(a: string, b: string, c: string)
    requires StrLess(a, b) && StrLess(b, c)
    ensures StrLess(a, c)
  {
    if a != [] && a[0] == b[0] && b[0] == c[0] {
      StrLessTransitive(a[1..], b[1..], c[1..]);
    }
  }

  /** Strings that agree up to position `i` and differ there are ordered by that position. */
  lemma {:induction false} StrLessAt(a: string, b: string, i: nat)
    requires i < |a| && i < |b| && a[..i] == b[..i] && a[i] < b[i]
    ensures StrLess(a, b)
  {
    if i > 0 {
      assert a[1..][..i - 1] == a[..i][1..] && b[1..][..i - 1] == b[..i][1..];
      assert a[0] == a[..i][0];
      StrLessAt(a[1..], b[1..], i - 1);
    }
  }

  /** Any two distinct strings are ordered one way or the other. */
  lemma {:induction false} StrLessTotal(a: string, b: string)
    requires a != b
    ensures StrLess(a, b) || StrLess(b, a)
  {
    if a != [] && b != [] && a[0] == b[0] {
      assert a == [a[0]] + a[1..] && b == [b[0]] + b[1..];
      StrLessTotal(a[1..], b[1..]);
    }
  }

  /** The elements of a sequence. */
  function Elems(s: seq<string>): set<string>
  {
    set x | x in s
  }

  lemma ElemsEmpty(s: seq<string>)
    ensures Elems(s) == {} <==> s == []
  {
    if s != [] {
      assert s[0] in Elems(s);
    }
  }

  lemma ElemsAppend(s: seq<string>, x: string)
    ensures Elems(s + [x]) == Elems(s) + {x}
  {
    assert (s + [x])[|s|] == x;
    forall y | y in Elems(s) ensures y in Elems(s + [x]) {
      var i :| 0 <= i < |s| && s[i] == y;
      assert (s + [x])[i] == y;
    }
  }

  /** Ascending with no repetition. */
  predicate StrictlySorted(s: seq<string>)
  {
    forall i, j :: 0 <= i < j < |s| ==> StrLess(s[i], s[j])
  }

  /** Inserts `x`, absent from the sorted `s`, at its place. */
  function InsertSorted(x: string, s: seq<string>): (r: seq<string>)
    requires StrictlySorted(s) && x !in s
    ensures StrictlySorted(r)
    ensures Elems(r) == Elems(s) + {x}
    ensures |r| == |s| + 1
  {
    if s == [] then [x]
    else if StrLess(s[0], x) then
      var rest := InsertSorted(x, s[1..]);
      InsertAfterSmaller(x, s, rest);
      [s[0]] + rest
    else
      StrLessTotal(x, s[0]);
      InsertBeforeLarger(x, s);
      [x] + s
  }

  lemma InsertAfterSmaller(x: string, s: seq<string>, rest: seq<string>)
    requires StrictlySorted(s) && s != [] && StrLess(s[0], x)
    requires StrictlySorted(rest)
    requires Elems(rest) == Elems(s[1..]) + {x}
    ensures StrictlySorted([s[0]] + rest)
  {
    var r := [s[0]] + rest;
    forall i, j | 0 <= i < j < |r| ensures StrLess(r[i], r[j]) {
      if i == 0 {
        assert r[j] == rest[j - 1];
        assert r[j] in Elems(rest);
        if r[j] != x {
          assert r[j] in Elems(s[1..]) + {x};
          assert r[j] in Elems(s[1..]);
          assert r[j] in s[1..];
          var k :| 0 <= k < |s[1..]| && s[1..][k] == r[j];
          assert s[k + 1] == r[j];
        }
      } else {
        assert r[i] == rest[i - 1] && r[j] == rest[j - 1];
      }
    }
  }

  lemma InsertBeforeLarger(x: string, s: seq<string>)
    requires StrictlySorted(s) && s != [] && StrLess(x, s[0])
    ensures StrictlySorted([x] + s)
  {
    var r := [x] + s;
    forall i, j | 0 <= i < j < |r| ensures StrLess(r[i], r[j]) {
      if i == 0 && j > 1 {
        StrLessTransitive(x, s[0], s[j - 1]);
      }
    }
  }

  predicate Distinct(s: seq<string>)
  {
    forall i, j :: 0 <= i < j < |s| ==> s[i] != s[j]
  }

  lemma SortedDistinct(s: seq<string>)
    requires StrictlySorted(s)
    ensures Distinct(s)
  {
    forall i, j | 0 <= i < j < |s| ensures s[i] != s[j] {
      StrLessIrreflexive(s[i]);
    }
  }

  /**
   * `sort.Strings` on a slice without repeated elements, by insertion:
   * the result is ascending and holds exactly the input's elements.
   */
  method SortKeys(keys: seq<string>) returns (sorted: seq<string>)
    requires Distinct(keys)
    ensures StrictlySorted(sorted)
    ensures Elems(sorted) == Elems(keys)
    ensures |sorted| == |keys|
  {
    sorted := [];
    var i := 0;
    while i < |keys|
      invariant 0 <= i <= |keys|
      invariant StrictlySorted(sorted) && |sorted| == i
      invariant Elems(sorted) == Elems(keys[..i])
    {
      assert keys[i] !in keys[..i];
      assert keys[i] !in Elems(keys[..i]);
      assert keys[i] !in Elems(sorted);
      assert keys[i] !in sorted;
      assert keys[..i + 1] == keys[..i] + [keys[i]];
      sorted := InsertSorted(keys[i], sorted);
      i := i + 1;
    }
    assert keys[..i] == keys;
  }

  /** A set has only one ascending listing without repetition. */
  lemma {:induction false} SortedUnique(a: seq<string>, b: seq<string>)
    requires StrictlySorted(a) && StrictlySorted(b)
    requires Elems(a) == Elems(b)
    ensures a == b
  {
    ElemsEmpty(a);
    ElemsEmpty(b);
    if a != [] && b != [] {
      if a[0] != b[0] {
        assert a[0] in Elems(a);
        assert a[0] in Elems(b);
        assert a[0] in b;
        assert b[0] in Elems(b);
        assert b[0] in Elems(a);
        assert b[0] in a;
        var i :| 0 <= i < |a| && a[i] == b[0];
        var j :| 0 <= j < |b| && b[j] == a[0];
        StrLessAsymmetric(a[0], b[0]);
        assert false;
      }
      forall k | k in a[1..] ensures k != a[0] {
        var i :| 0 <= i < |a[1..]| && a[1..][i] == k;
        assert a[i + 1] == k;
        StrLessIrreflexive(a[0]);
      }
      forall k | k in b[1..] ensures k != b[0] {
        var i :| 0 <= i < |b[1..]| && b[1..][i] == k;
        assert b[i + 1] == k;
        StrLessIrreflexive(b[0]);
      }
      assert a == [a[0]] + a[1..] && b == [b[0]] + b[1..];
      assert Elems(a) == Elems(a[1..]) + {a[0]};
      assert Elems(b) == Elems(b[1..]) + {b[0]};
      assert Elems(a[1..]) == Elems(b[1..]);
      SortedUnique(a[1..], b[1..]);
    }
  }
}
