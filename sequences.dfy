/**
 * Kotlin's `sortedBy`, and the `ORDER BY` of the database queries: an
 * insertion sort under a total "no later than" relation.  The sort keeps
 * equal elements in their input order by construction, but that stability
 * is not one of the properties proved here.
 */
module Sequences {

  ghost predicate Total<T(!new)>(le: (T, T) -> bool) {
    forall a, b :: le(a, b) || le(b, a)
  }

  predicate SortedBy<T>(s: seq<T>, le: (T, T) -> bool) {
    forall i :: 0 < i < |s| ==> le(s[i - 1], s[i])
  }

  /** Puts `x` before the first element it is no later than (so after every element strictly earlier, before every element equal to it). */
  function InsertBy<T(!new)>(x: T, s: seq<T>, le: (T, T) -> bool): (r: seq<T>)
    ensures Total(le) && SortedBy(s, le) ==> SortedBy(r, le)
    ensures |r| == |s| + 1 && (r[0] == x || (|s| > 0 && r[0] == s[0]))
    decreases |s|
  {
    if |s| == 0 || le(x, s[0]) then [x] + s
    else [s[0]] + InsertBy(x, s[1..], le)
  }

  /** Inserting adds exactly one occurrence of `x`. */
  lemma {:induction false} InsertByPermutation<T(!new)>(x: T, s: seq<T>, le: (T, T) -> bool)
    ensures multiset(InsertBy(x, s, le)) == multiset(s) + multiset{x}
    decreases |s|
  {
    if |s| > 0 && !le(x, s[0]) {
      InsertByPermutation(x, s[1..], le);
      assert s == [s[0]] + s[1..];
    }
  }

  function SortBy<T(!new)>(s: seq<T>, le: (T, T) -> bool): (r: seq<T>)
    ensures Total(le) ==> SortedBy(r, le)
    decreases |s|
  {
    if |s| == 0 then [] else InsertBy(s[0], SortBy(s[1..], le), le)
  }

  /** The sorted list is a permutation of its input. */
  lemma {:induction false} SortByPermutation<T(!new)>(s: seq<T>, le: (T, T) -> bool)
    ensures multiset(SortBy(s, le)) == multiset(s)
    decreases |s|
  {
    if |s| > 0 {
      SortByPermutation(s[1..], le);
      InsertByPermutation(s[0], SortBy(s[1..], le), le);
      assert s == [s[0]] + s[1..];
    }
  }

  /** A sorted permutation has the same elements as its input. */
  lemma SortByMembers<T(!new)>(s: seq<T>, le: (T, T) -> bool, x: T)
    ensures x in SortBy(s, le) <==> x in s
  {
    SortByPermutation(s, le);
    var r := SortBy(s, le);
    assert x in r <==> x in multiset(r);
    assert x in s <==> x in multiset(s);
  }

  /** Sorting two lists together yields the occurrences of both. */
  lemma SortByConcatPermutation<T(!new)>(a: seq<T>, b: seq<T>, le: (T, T) -> bool)
    ensures multiset(SortBy(a + b, le)) == multiset(a) + multiset(b)
  {
    SortByPermutation(a + b, le);
  }

  /** Sorting two lists together keeps exactly the elements of both. */
  lemma SortByConcatMembers<T(!new)>(a: seq<T>, b: seq<T>, le: (T, T) -> bool, x: T)
    ensures x in SortBy(a + b, le) <==> x in a || x in b
  {
    SortByMembers(a + b, le, x);
  }

  /** The elements of `s` satisfying `p`, in their order: a `WHERE` clause. */
  function Filter<T>(s: seq<T>, p: T -> bool): (r: seq<T>)
    ensures |r| <= |s|
    decreases |s|
  {
    if |s| == 0 then []
    else if p(s[0]) then [s[0]] + Filter(s[1..], p)
    else Filter(s[1..], p)
  }

  /** A filter keeps exactly the elements satisfying its condition. */
  lemma {:induction false} FilterMembers<T>(s: seq<T>, p: T -> bool, x: T)
    ensures x in Filter(s, p) <==> x in s && p(x)
    decreases |s|
  {
    if |s| > 0 {
      FilterMembers(s[1..], p, x);
      assert x in s <==> x == s[0] || x in s[1..];
    }
  }
}
