/** Minimum and sorted enumeration of a finite set of naturals: Python's `min` and `sorted`. */
module Order {

  /** Strictly increasing, hence also free of repetitions. */
  ghost predicate Increasing(s: seq<nat>) {
    forall i, j :: 0 <= i < j < |s| ==> s[i] < s[j]
  }

  lemma {:induction false} HasMinUpTo(s: set<nat>, x: nat)
    requires x in s
    ensures exists m :: m in s && forall y :: y in s ==> m <= y
    decreases x
  {
    if y :| y in s && y < x {
      HasMinUpTo(s, y);
    }
  }

  lemma HasMin(s: set<nat>)
    requires s != {}
    ensures exists m :: m in s && forall x :: x in s ==> m <= x
  {
    var x :| x in s;
    HasMinUpTo(s, x);
  }

  function Min(s: set<nat>): (m: nat)
    requires s != {}
    ensures m in s
    ensures forall x :: x in s ==> m <= x
  {
    HasMin(s);
    var m :| m in s && forall x :: x in s ==> m <= x;
    m
  }

  function Sorted(s: set<nat>): (r: seq<nat>)
    ensures Increasing(r)
    ensures forall x :: x in r <==> x in s
    ensures |r| == |s|
  {
    if s == {} then []
    else
      var m := Min(s);
      [m] + Sorted(s - {m})
  }

  /** The elements from largest to smallest. */
  function Descending(s: set<nat>): (r: seq<nat>)
    ensures forall i, j :: 0 <= i < j < |r| ==> r[i] > r[j]
    ensures forall x :: x in r <==> x in s
  {
    if s == {} then []
    else
      var m := Min(s);
      Descending(s - {m}) + [m]
  }
}
