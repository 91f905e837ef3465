/** Iteration order of a pending element set.

    The source keeps changed and added elements in `std::set`s of element
    pointers and iterates them in pointer order, which is not visible here.
    The model iterates in ascending element id instead: a fixed total order
    that, like the source's, visits every member exactly once.
 */
module Ordering {

  predicate IsLeast(m: nat, s: set<nat>) {
    m in s && forall x :: x in s ==> m <= x
  }

  lemma {:induction false} HasMinimum(s: set<nat>)
    requires s != {}
    ensures exists m :: IsLeast(m, s)
    decreases |s|
  {
    var y :| y in s;
    var rest := s - {y};
    var least := y;
    if rest != {} {
      HasMinimum(rest);
      var m :| IsLeast(m, rest);
      least := if y < m then y else m;
    }
    forall x | x in s
      ensures least <= x
    {
      if x != y {
        assert x in rest;
      }
    }
    assert IsLeast(least, s);
  }

  function Min(s: set<nat>): (m: nat)
    requires s != {}
    ensures IsLeast(m, s)
  {
    HasMinimum(s);
    var m :| IsLeast(m, s);
    m
  }

  /** The members of `s`, each exactly once, smallest first. */
  function Ascending(s: set<nat>): (r: seq<nat>)
    ensures |r| == |s|
    ensures forall x :: x in r <==> x in s
    ensures forall i, j :: 0 <= i < j < |r| ==> r[i] < r[j]
    decreases |s|
  {
    if s == {} then []
    else
      var m := Min(s);
      [m] + Ascending(s - {m})
  }
}
