/** Ascending integer sequences: the order of the year list and of the month lists. */
module Ordering {

  predicate StrictlyIncreasing(s: seq<int>)
  {
    forall i, j :: 0 <= i < j < |s| ==> s[i] < s[j]
  }

  /** `m` is the least element of `s`. */
  predicate IsLeast(m: int, s: set<int>)
  {
    m in s && forall x :: x in s ==> m <= x
  }

  /** A non-empty set of integers has a least element. */
  lemma {:induction false} MinExists(s: set<int>)
    requires s != {}
    ensures exists m :: IsLeast(m, s)
    decreases |s|
  {
    if forall x :: x !in s {
      assert false;
    }
    var y :| y in s;
    var rest := s - {y};
    if rest == {} {
      forall x | x in s
        ensures y <= x
      {
        assert x !in rest;
      }
      assert IsLeast(y, s);
    } else {
      MinExists(rest);
      var m :| IsLeast(m, rest);
      var least := if y < m then y else m;
      forall x | x in s
        ensures least <= x
      {
        if x != y {
          assert x in rest;
        }
      }
      assert IsLeast(least, s);
    }
  }

  /** The least element of a non-empty set. */
  function MinOf(s: set<int>): (m: int)
    requires s != {}
    ensures m in s && forall x :: x in s ==> m <= x
  {
    MinExists(s);
    var m :| IsLeast(m, s);
    m
  }

  /** The elements of `s` in ascending order. */
  function Sorted(s: set<int>): (r: seq<int>)
    ensures StrictlyIncreasing(r)
    ensures forall x :: x in r <==> x in s
    decreases |s|
  {
    if s == {} then []
    else
      var m := MinOf(s);
      [m] + Sorted(s - {m})
  }

  /** The elements of a sequence, as a set. */
  function Elements(a: seq<int>): (s: set<int>)
    ensures forall x :: x in s <==> x in a
  {
    set x | x in a
  }

  /** Sorting the elements of an ascending sequence gives that sequence back. */
  lemma {:induction false} SortedOfAscending(a: seq<int>)
    requires StrictlyIncreasing(a)
    ensures Sorted(Elements(a)) == a
    decreases |a|
  {
    if a == [] {
      assert Elements(a) == {};
    } else {
      AscendingHead(a);
      SortedOfAscending(a[1..]);
      assert a == [a[0]] + a[1..];
    }
  }

  /** The head of a non-empty ascending sequence is its least element, and the rest holds all the others. */
  lemma AscendingHead(a: seq<int>)
    requires StrictlyIncreasing(a) && a != []
    ensures a[0] in Elements(a) && MinOf(Elements(a)) == a[0]
    ensures Elements(a) - {a[0]} == Elements(a[1..])
  {
    var s := Elements(a);
    assert a[0] in s;
    var m := MinOf(s);
    assert m == a[0];
  }

  /** Two ascending sequences with the same elements are equal. */
  lemma AscendingUnique(a: seq<int>, b: seq<int>)
    requires StrictlyIncreasing(a) && StrictlyIncreasing(b)
    requires forall x :: x in a <==> x in b
    ensures a == b
  {
    SortedOfAscending(a);
    SortedOfAscending(b);
    assert Elements(a) == Elements(b);
  }
}
