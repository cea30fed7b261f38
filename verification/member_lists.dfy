/**
 * Lists of member emails as the client pages edit them: removing every copy
 * of an email (`filter(e => e !== x)`), and the counting facts the split
 * builder's sums rest on.
 */
module MemberLists {

  /** No email occurs twice. */
  predicate Distinct(s: seq<string>) {
    forall i, j :: 0 <= i < j < |s| ==> s[i] != s[j]
  }

  function Elements(s: seq<string>): set<string> {
    set x | x in s
  }

  /** `s.filter(e => e !== x)`: every copy of x removed, the rest in order. */
  function Without(s: seq<string>, x: string): (r: seq<string>)
    ensures forall y :: y in r <==> y in s && y != x
    ensures |r| <= |s|
    ensures x !in s ==> r == s
    ensures Distinct(s) ==> Distinct(r)
  {
    if s == [] then []
    else if s[0] == x then Without(s[1..], x)
    else
      var rest := Without(s[1..], x);
      assert forall y :: y in rest ==> y in s[1..];
      assert Distinct(s) ==> s[0] !in s[1..] by {
        if Distinct(s) {
          forall j | 1 <= j < |s| ensures s[j] != s[0] {
          }
        }
      }
      [s[0]] + rest
  }

  /** Removing from a concatenation removes from each part: the order of what is kept is unchanged. */
  lemma {:induction false} WithoutAppend(a: seq<string>, b: seq<string>, x: string)
    ensures Without(a + b, x) == Without(a, x) + Without(b, x)
  {
    if a == [] {
      assert a + b == b;
    } else {
      assert (a + b)[1..] == a[1..] + b;
      WithoutAppend(a[1..], b, x);
    }
  }

  /** How many times x occurs. */
  function Count(s: seq<string>, x: string): nat {
    if s == [] then 0 else (if s[0] == x then 1 else 0) + Count(s[1..], x)
  }

  /** An element counted at least once is listed. */
  lemma {:induction false} CountPositive(s: seq<string>, x: string)
    requires Count(s, x) > 0
    ensures x in s
  {
    if s[0] != x {
      CountPositive(s[1..], x);
    }
  }

  /** In a list without repeats, a listed element occurs exactly once. */
  lemma {:induction false} CountDistinct(s: seq<string>, x: string)
    requires Distinct(s)
    ensures Count(s, x) == if x in s then 1 else 0
  {
    if s != [] {
      CountDistinct(s[1..], x);
      if s[0] == x {
        assert x !in s[1..] by {
          forall j | 1 <= j < |s| ensures s[j] != x {
          }
        }
      }
    }
  }

  /** A list without repeats has as many elements as its set. */
  lemma {:induction false} DistinctCardinality(s: seq<string>)
    requires Distinct(s)
    ensures |Elements(s)| == |s|
  {
    if s != [] {
      DistinctCardinality(s[1..]);
      assert Elements(s) == {s[0]} + Elements(s[1..]);
      assert s[0] !in Elements(s[1..]);
    }
  }

  /** How many entries of s lie in the set `chosen`. */
  function CountIn(s: seq<string>, chosen: set<string>): nat {
    if s == [] then 0 else (if s[0] in chosen then 1 else 0) + CountIn(s[1..], chosen)
  }

  /** In a list without repeats, the entries lying in a set are its elements in that set. */
  lemma {:induction false} CountInDistinct(s: seq<string>, chosen: set<string>)
    requires Distinct(s)
    ensures CountIn(s, chosen) == |Elements(s) * chosen|
  {
    if s != [] {
      CountInDistinct(s[1..], chosen);
      assert Elements(s) * chosen
             == (if s[0] in chosen then {s[0]} else {}) + Elements(s[1..]) * chosen;
      assert s[0] !in Elements(s[1..]);
    }
  }
}
