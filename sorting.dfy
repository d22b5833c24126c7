/** The in-place sort the classifier runs on its ranking pairs, and facts
    about sequences of pairs that a reordering keeps: which names occur, and
    that no name occurs twice. */
module Sorting {

  /** The comparator of the sort: strictly greater first for a top limit,
      strictly smaller first for a bottom limit. */
  predicate Before(isTop: bool, x: int, y: int)
  {
    if isTop then x > y else x < y
  }

  /** `x` may stand before `y` in a sorted result. */
  predicate InOrder(isTop: bool, x: int, y: int)
  {
    if isTop then x >= y else x <= y
  }

  ghost predicate SortedBy<T>(s: seq<T>, key: T -> int, isTop: bool)
  {
    forall i, j :: 0 <= i < j < |s| ==> InOrder(isTop, key(s[i]), key(s[j]))
  }

  /** Sorts `a` in place so that no element is `Before` an earlier one. Ties
      may end up in any order: nothing is promised about them. */
  method SortSlice<T>(a: array<T>, key: T -> int, isTop: bool)
    modifies a
    ensures SortedBy(a[..], key, isTop)
    ensures multiset(a[..]) == old(multiset(a[..]))
  {
    var i := 0;
    while i < a.Length
      invariant 0 <= i <= a.Length
      invariant SortedBy(a[..i], key, isTop)
      invariant multiset(a[..]) == old(multiset(a[..]))
    {
      var j := i;
      while j > 0 && Before(isTop, key(a[j]), key(a[j - 1]))
        invariant 0 <= j <= i
        invariant forall p, q :: 0 <= p < q <= i && q != j ==> InOrder(isTop, key(a[p]), key(a[q]))
        invariant multiset(a[..]) == old(multiset(a[..]))
      {
        a[j - 1], a[j] := a[j], a[j - 1];
        j := j - 1;
      }
      i := i + 1;
    }
    assert a[..a.Length] == a[..];
  }

  /** No two elements of `s` have the same image under `f`. */
  ghost predicate DistinctBy<T, U>(s: seq<T>, f: T -> U)
  {
    forall i, j :: 0 <= i < j < |s| ==> f(s[i]) != f(s[j])
  }

  /** The images under `f` of the elements of `s`. */
  ghost function Image<T, U>(s: seq<T>, f: T -> U): set<U>
  {
    set i | 0 <= i < |s| :: f(s[i])
  }

  /** Elements with distinct images occur at most once each. */
  lemma {:induction false} DistinctByOccursOnce<T, U>(s: seq<T>, f: T -> U)
    requires DistinctBy(s, f)
    ensures forall x :: multiset(s)[x] <= 1
  {
    if s != [] {
      DistinctByOccursOnce(s[1..], f);
      assert s == [s[0]] + s[1..];
      assert s[0] !in s[1..] by {
        forall k | 0 <= k < |s[1..]|
          ensures s[1..][k] != s[0]
        {
          assert f(s[k + 1]) != f(s[0]);
        }
      }
      assert multiset(s) == multiset{s[0]} + multiset(s[1..]);
    }
  }

  /** An element standing at two positions occurs at least twice. */
  lemma {:induction false} TwoPositionsOccurTwice<T>(s: seq<T>, i: nat, j: nat)
    requires i < j < |s| && s[i] == s[j]
    ensures multiset(s)[s[i]] >= 2
  {
    assert s == s[..j] + [s[j]] + s[j + 1..];
    assert s[i] == s[..j][i];
    assert multiset(s) == multiset(s[..j]) + multiset{s[j]} + multiset(s[j + 1..]);
  }

  /** Reordering keeps the images distinct. */
  lemma {:induction false} DistinctByPermutation<T, U>(s: seq<T>, t: seq<T>, f: T -> U)
    requires multiset(s) == multiset(t)
    requires DistinctBy(s, f)
    ensures DistinctBy(t, f)
  {
    DistinctByOccursOnce(s, f);
    forall i, j | 0 <= i < j < |t| && t[i] == t[j]
      ensures false
    {
      TwoPositionsOccurTwice(t, i, j);
    }
    forall i, j | 0 <= i < j < |t|
      ensures f(t[i]) != f(t[j])
    {
      assert t[i] in multiset(s) && t[j] in multiset(s);
    }
  }

  /** Reordering keeps the set of images. */
  lemma {:induction false} ImagePermutation<T, U>(s: seq<T>, t: seq<T>, f: T -> U)
    requires multiset(s) == multiset(t)
    ensures Image(s, f) == Image(t, f)
  {
    forall y | y in Image(s, f)
      ensures y in Image(t, f)
    {
      var i :| 0 <= i < |s| && f(s[i]) == y;
      assert s[i] in multiset(t);
      var j :| 0 <= j < |t| && t[j] == s[i];
      assert f(t[j]) == y;
    }
    forall y | y in Image(t, f)
      ensures y in Image(s, f)
    {
      var j :| 0 <= j < |t| && f(t[j]) == y;
      assert t[j] in multiset(s);
      var i :| 0 <= i < |s| && s[i] == t[j];
      assert f(s[i]) == y;
    }
  }

  /** With distinct images, a sequence has as many images as elements. */
  lemma {:induction false} ImageSize<T, U>(s: seq<T>, f: T -> U)
    requires DistinctBy(s, f)
    ensures |Image(s, f)| == |s|
  {
    if s != [] {
      var n := |s| - 1;
      var init := s[..n];
      assert DistinctBy(init, f);
      ImageSize(init, f);
      assert Image(s, f) == Image(init, f) + {f(s[n])} by {
        forall y | y in Image(s, f)
          ensures y in Image(init, f) + {f(s[n])}
        {
          var i :| 0 <= i < |s| && f(s[i]) == y;
          if i < n {
            assert init[i] == s[i];
          }
        }
        forall y | y in Image(init, f)
          ensures y in Image(s, f)
        {
          var i :| 0 <= i < n && f(init[i]) == y;
          assert s[i] == init[i];
        }
      }
      assert f(s[n]) !in Image(init, f);
    }
  }
}
