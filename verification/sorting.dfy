/**
 * The ascending `.order(column)` the database applies to a read, as a
 * specification: the result is sorted by the column and holds exactly the
 * rows of the table.
 */
module Sorting {

  /** `le` is a total preorder: any two rows compare, and comparison chains. */
  ghost predicate TotalPreorder<T(!new)>(le: (T, T) -> bool) {
    (forall a, b :: le(a, b) || le(b, a)) &&
    (forall a, b, c :: le(a, b) && le(b, c) ==> le(a, c))
  }

  predicate SortedBy<T(!new)>(s: seq<T>, le: (T, T) -> bool) {
    forall i, j :: 0 <= i < j < |s| ==> le(s[i], s[j])
  }

  /** `y` compares below every element of `s`. */
  predicate LowerBound<T(!new)>(y: T, s: seq<T>, le: (T, T) -> bool) {
    forall k :: 0 <= k < |s| ==> le(y, s[k])
  }

  /** Inserts `x` into a sorted sequence before the first element it does not follow. */
  function InsertBy<T(!new)>(x: T, s: seq<T>, le: (T, T) -> bool): (r: seq<T>)
    requires TotalPreorder(le) && SortedBy(s, le)
    ensures SortedBy(r, le)
    ensures multiset(r) == multiset(s) + multiset{x}
    ensures forall y :: le(y, x) && LowerBound(y, s, le) ==> LowerBound(y, r, le)
  {
    if s == [] then [x]
    else if le(x, s[0]) then [x] + s
    else
      assert s == [s[0]] + s[1..];
      assert LowerBound(s[0], s[1..], le);
      var tail := InsertBy(x, s[1..], le);
      [s[0]] + tail
  }

  /** The rows in ascending order of `le`. */
  function SortBy<T(!new)>(s: seq<T>, le: (T, T) -> bool): (r: seq<T>)
    requires TotalPreorder(le)
    ensures SortedBy(r, le)
    ensures multiset(r) == multiset(s)
  {
    if s == [] then []
    else
      assert s == [s[0]] + s[1..];
      InsertBy(s[0], SortBy(s[1..], le), le)
  }
}
