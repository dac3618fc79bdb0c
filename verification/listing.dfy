/**
 * Sorting a query's matches newest first, as the database does for
 * `sort({ createdAt: -1 })`. Records with equal timestamps may come out in
 * any order.
 */
module Listing {

  /** `r` is ordered by the timestamp `at`, largest first. */
  ghost predicate NewestFirst<T>(r: seq<T>, at: T -> int)
  {
    forall i, j :: 0 <= i < j < |r| ==> at(r[i]) >= at(r[j])
  }

  /** No record is listed twice. */
  ghost predicate Distinct<T>(r: seq<T>)
  {
    forall i, j :: 0 <= i < j < |r| ==> r[i] != r[j]
  }

  /** Every non-empty finite set has an element with the largest timestamp. */
  lemma {:induction false} NewestExists<T>(s: set<T>, at: T -> int)
    requires s != {}
    ensures exists x :: x in s && forall y :: y in s ==> at(y) <= at(x)
    decreases |s|
  {
    var x :| x in s;
    if s == {x} {
      assert forall y :: y in s ==> at(y) <= at(x);
    } else {
      NewestExists(s - {x}, at);
      var m :| m in s - {x} && forall y :: y in s - {x} ==> at(y) <= at(m);
      if at(x) <= at(m) {
        assert forall y :: y in s ==> at(y) <= at(m);
      } else {
        assert forall y :: y in s ==> at(y) <= at(x);
      }
    }
  }

  /** The records of `s`, each once, newest first. */
  ghost function SortNewest<T(!new)>(s: set<T>, at: T -> int): (r: seq<T>)
    ensures forall x :: x in r <==> x in s
    ensures |r| == |s|
    ensures Distinct(r)
    ensures NewestFirst(r, at)
    decreases |s|
  {
    if s == {} then []
    else
      NewestExists(s, at);
      var x :| x in s && forall y :: y in s ==> at(y) <= at(x);
      [x] + SortNewest(s - {x}, at)
  }
}
