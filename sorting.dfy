/**
 * The stable sort the settlement planner relies on. `Array.prototype.sort` is
 * stable, so sorting by a comparator `(a, b) => rank(b) - rank(a)` yields the
 * elements by non-increasing rank, with equal ranks in their input order.
 */
module Sorting {

  /** `rank` never increases along `s`. */
  predicate NonIncreasing<T>(s: seq<T>, rank: T -> int) {
    forall i, j :: 0 <= i < j < |s| ==> rank(s[i]) >= rank(s[j])
  }

  /** Puts `x` just ahead of the first element whose rank is not above its own. */
  function Insert<T>(x: T, s: seq<T>, rank: T -> int): seq<T> {
    if s == [] || rank(s[0]) <= rank(x) then [x] + s
    else [s[0]] + Insert(x, s[1..], rank)
  }

  /** Inserting adds `x` and loses nothing. */
  lemma {:induction false} InsertPermutes<T>(x: T, s: seq<T>, rank: T -> int)
    ensures multiset(Insert(x, s, rank)) == multiset(s) + multiset{x}
  {
    if s != [] && rank(s[0]) > rank(x) {
      InsertPermutes(x, s[1..], rank);
      assert s == [s[0]] + s[1..];
    }
  }

  /** Insertion sort by non-increasing rank: each element goes in ahead of the later ones it ties with. */
  function SortBy<T>(s: seq<T>, rank: T -> int): (r: seq<T>)
    ensures multiset(r) == multiset(s)
    ensures NonIncreasing(r, rank)
  {
    if s == [] then []
    else
      var rest := SortBy(s[1..], rank);
      InsertSorted(s[0], rest, rank);
      InsertPermutes(s[0], rest, rank);
      assert s == [s[0]] + s[1..];
      Insert(s[0], rest, rank)
  }

  /** No element of `s` ranks above `bound`. */
  predicate AtMost<T>(s: seq<T>, rank: T -> int, bound: int) {
    forall i :: 0 <= i < |s| ==> rank(s[i]) <= bound
  }

  lemma {:induction false} InsertAtMost<T>(x: T, s: seq<T>, rank: T -> int, bound: int)
    requires AtMost(s, rank, bound) && rank(x) <= bound
    ensures AtMost(Insert(x, s, rank), rank, bound)
  {
    if s != [] && rank(s[0]) > rank(x) {
      InsertAtMost(x, s[1..], rank, bound);
    }
  }

  lemma {:induction false} InsertSorted<T>(x: T, s: seq<T>, rank: T -> int)
    requires NonIncreasing(s, rank)
    ensures NonIncreasing(Insert(x, s, rank), rank)
  {
    if s == [] || rank(s[0]) <= rank(x) {
      assert AtMost(s, rank, rank(x)) by {
        if s != [] {
          assert forall i :: 0 <= i < |s| ==> rank(s[i]) <= rank(s[0]);
        }
      }
      SortedCons(x, s, rank);
    } else {
      var tail := Insert(x, s[1..], rank);
      assert Insert(x, s, rank) == [s[0]] + tail;
      InsertSorted(x, s[1..], rank);
      InsertAtMost(x, s[1..], rank, rank(s[0]));
      SortedCons(s[0], tail, rank);
    }
  }

  /** A sorted sequence stays sorted with an element ranked no lower put in front. */
  lemma SortedCons<T>(x: T, s: seq<T>, rank: T -> int)
    requires NonIncreasing(s, rank) && AtMost(s, rank, rank(x))
    ensures NonIncreasing([x] + s, rank)
  {
    var r := [x] + s;
    forall i, j | 0 <= i < j < |r| ensures rank(r[i]) >= rank(r[j]) {
      assert r[j] == s[j - 1];
      if i > 0 {
        assert r[i] == s[i - 1];
      }
    }
  }

  /** The elements of `s` whose rank is `k`, in order. */
  function Ranked<T>(s: seq<T>, rank: T -> int, k: int): seq<T> {
    if s == [] then []
    else (if rank(s[0]) == k then [s[0]] else []) + Ranked(s[1..], rank, k)
  }

  lemma {:induction false} InsertStable<T>(x: T, s: seq<T>, rank: T -> int, k: int)
    ensures Ranked(Insert(x, s, rank), rank, k) == (if rank(x) == k then [x] else []) + Ranked(s, rank, k)
  {
    var r := Insert(x, s, rank);
    if s == [] || rank(s[0]) <= rank(x) {
      assert r[0] == x && r[1..] == s;
    } else {
      var tail := Insert(x, s[1..], rank);
      assert r[0] == s[0] && r[1..] == tail;
      InsertStable(x, s[1..], rank, k);
      var rest := Ranked(s[1..], rank, k);
      if rank(x) == k {
        assert Ranked(r, rank, k) == [] + ([x] + rest);
        assert Ranked(s, rank, k) == [] + rest;
        assert [] + ([x] + rest) == [x] + ([] + rest);
      } else {
        var head := if rank(s[0]) == k then [s[0]] else [];
        assert Ranked(r, rank, k) == head + ([] + rest);
        assert Ranked(s, rank, k) == head + rest;
        assert head + ([] + rest) == [] + (head + rest);
      }
    }
  }

  /** The sort is stable: elements of equal rank come out in their input order. */
  lemma {:induction false} SortStable<T>(s: seq<T>, rank: T -> int, k: int)
    ensures Ranked(SortBy(s, rank), rank, k) == Ranked(s, rank, k)
  {
    if s != [] {
      SortStable(s[1..], rank, k);
      InsertStable(s[0], SortBy(s[1..], rank), rank, k);
    }
  }
}
