/**
 * Sorting by a comparator, as `Array.prototype.sort` and the document store's
 * `sort` do it. `before(a, b)` says that a may be placed before b (for
 * JavaScript, `compare(a, b) <= 0`). The sort is insertion sort; what is proved
 * of it is that the result is sorted and a permutation of the input.
 */
module Sorting {

  /** `before` is total and transitive: a total preorder. */
  ghost predicate TotalPreorder<T(!new)>(before: (T, T) -> bool) {
    && (forall a, b :: before(a, b) || before(b, a))
    && (forall a, b, c :: before(a, b) && before(b, c) ==> before(a, c))
  }

  ghost predicate SortedBy<T>(s: seq<T>, before: (T, T) -> bool) {
    forall i, j :: 0 <= i < j < |s| ==> before(s[i], s[j])
  }

  /** Inserts x in front of the first element it may precede. */
  function Insert<T>(x: T, s: seq<T>, before: (T, T) -> bool): (r: seq<T>)
    ensures multiset(r) == multiset(s) + multiset{x}
    ensures |r| == |s| + 1
  {
    if s == [] then [x]
    else if before(x, s[0]) then [x] + s
    else
      assert s == [s[0]] + s[1..];
      [s[0]] + Insert(x, s[1..], before)
  }

  /** The input sorted by `before`. */
  function SortBy<T>(s: seq<T>, before: (T, T) -> bool): (r: seq<T>)
    ensures multiset(r) == multiset(s)
    ensures |r| == |s|
  {
    if s == [] then []
    else
      assert s == [s[0]] + s[1..];
      Insert(s[0], SortBy(s[1..], before), before)
  }

  lemma {:induction false} InsertSorted<T(!new)>(x: T, s: seq<T>, before: (T, T) -> bool)
    requires TotalPreorder(before)
    requires SortedBy(s, before)
    ensures SortedBy(Insert(x, s, before), before)
  {
    if s != [] && !before(x, s[0]) {
      var rest := Insert(x, s[1..], before);
      InsertSorted(x, s[1..], before);
      assert before(s[0], x);
      forall y | y in rest ensures before(s[0], y) {
        assert y in multiset(rest);
        if y != x {
          assert y in multiset(s[1..]);
          var k :| 0 <= k < |s[1..]| && s[1..][k] == y;
          assert s[k + 1] == y;
        }
      }
      var r := [s[0]] + rest;
      forall i, j | 0 <= i < j < |r| ensures before(r[i], r[j]) {
        if i == 0 {
          assert r[j] == rest[j - 1];
          assert r[j] in rest;
        } else {
          assert r[i] == rest[i - 1] && r[j] == rest[j - 1];
        }
      }
    }
  }

  lemma {:induction false} SortBySorted<T(!new)>(s: seq<T>, before: (T, T) -> bool)
    requires TotalPreorder(before)
    ensures SortedBy(SortBy(s, before), before)
  {
    if s != [] {
      SortBySorted(s[1..], before);
      InsertSorted(s[0], SortBy(s[1..], before), before);
    }
  }

  /**
   * In a sorted sequence every element of the first k may be placed before every
   * element that is only in the rest: taking the first k keeps the best k.
   */
  lemma PrefixPrecedesRest<T>(s: seq<T>, k: nat, before: (T, T) -> bool)
    requires SortedBy(s, before)
    requires k <= |s|
    ensures forall x, y :: x in s[..k] && y in s[k..] ==> before(x, y)
  {
    forall x, y | x in s[..k] && y in s[k..] ensures before(x, y) {
      var i :| 0 <= i < k && s[..k][i] == x;
      var j :| 0 <= j < |s| - k && s[k..][j] == y;
      assert s[i] == x && s[k + j] == y;
    }
  }

  /**
   * Taking the first k of a sorted sequence keeps the best k: the prefix is
   * sorted, and an element of which the prefix holds fewer copies than the
   * whole may be placed after every element of the prefix.
   */
  lemma TakeBest<T>(s: seq<T>, k: nat, before: (T, T) -> bool)
    requires SortedBy(s, before)
    requires k <= |s|
    ensures SortedBy(s[..k], before)
    ensures multiset(s[..k]) <= multiset(s)
    ensures forall x, y :: x in s[..k] && y in s && multiset(s[..k])[y] < multiset(s)[y] ==> before(x, y)
  {
    assert s == s[..k] + s[k..];
    assert multiset(s) == multiset(s[..k]) + multiset(s[k..]);
    PrefixPrecedesRest(s, k, before);
    forall y | y in s && multiset(s[..k])[y] < multiset(s)[y]
      ensures y in s[k..]
    {
      assert y in multiset(s[k..]);
    }
  }
}
