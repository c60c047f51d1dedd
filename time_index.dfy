/**
 * The time index of a frame: timestamps are whole hours (integers). pandas
 * keeps an index sorted; here the order is recovered from the set of
 * timestamps.
 */
module TimeIndex {

  /** A set that is not empty has a member. */
  lemma Inhabited(s: set<int>)
    requires s != {}
    ensures exists y :: y in s
  {
    if forall y :: y !in s {
      assert false;
    }
  }

  /** Every non-empty finite set of integers has a least element. */
  lemma {:induction false} LeastExists(s: set<int>)
    requires s != {}
    ensures exists m :: m in s && forall x :: x in s ==> m <= x
    decreases |s|
  {
    Inhabited(s);
    var y :| y in s;
    assert forall x :: x in s ==> x == y || x in s - {y};
    if s != {y} {
      LeastExists(s - {y});
      var m :| m in s - {y} && forall x :: x in s - {y} ==> m <= x;
      if y < m {
        assert forall x :: x in s ==> y <= x;
      } else {
        assert forall x :: x in s ==> m <= x;
      }
    } else {
      assert forall x :: x in s ==> y <= x;
    }
  }

  /** `index.min()`. */
  function SetMin(s: set<int>): (m: int)
    requires s != {}
    ensures m in s && forall x :: x in s ==> m <= x
  {
    LeastExists(s);
    var m :| m in s && forall x :: x in s ==> m <= x;
    m
  }

  /** Every non-empty finite set of integers has a greatest element. */
  lemma {:induction false} GreatestExists(s: set<int>)
    requires s != {}
    ensures exists m :: m in s && forall x :: x in s ==> x <= m
    decreases |s|
  {
    Inhabited(s);
    var y :| y in s;
    assert forall x :: x in s ==> x == y || x in s - {y};
    if s != {y} {
      GreatestExists(s - {y});
      var m :| m in s - {y} && forall x :: x in s - {y} ==> x <= m;
      if y > m {
        assert forall x :: x in s ==> x <= y;
      } else {
        assert forall x :: x in s ==> x <= m;
      }
    } else {
      assert forall x :: x in s ==> x <= y;
    }
  }

  /** `index.max()`. */
  function SetMax(s: set<int>): (m: int)
    requires s != {}
    ensures m in s && forall x :: x in s ==> x <= m
  {
    GreatestExists(s);
    var m :| m in s && forall x :: x in s ==> x <= m;
    m
  }

  /** Strictly increasing: no duplicate timestamps, ascending order. */
  predicate Increasing(ts: seq<int>) {
    forall i, j :: 0 <= i < j < |ts| ==> ts[i] < ts[j]
  }

  /** The index in ascending order (`SortedIncreasing` proves the order). */
  function Sorted(s: set<int>): (ts: seq<int>)
    ensures |ts| == |s|
    ensures forall t :: t in s <==> t in ts
    decreases |s|
  {
    if s == {} then []
    else
      var m := SetMin(s);
      [m] + Sorted(s - {m})
  }

  /** The sorted index is strictly increasing. */
  lemma {:induction false} SortedIncreasing(s: set<int>)
    ensures Increasing(Sorted(s))
    decreases |s|
  {
    if s != {} {
      var m := SetMin(s);
      var rest := Sorted(s - {m});
      SortedIncreasing(s - {m});
      assert forall t :: t in rest ==> m < t;
      assert Sorted(s) == [m] + rest;
    }
  }

  /** The position of a timestamp in an increasing sequence. */
  function Position(ts: seq<int>, t: int): (i: nat)
    requires t in ts
    ensures i < |ts| && ts[i] == t
  {
    if ts[0] == t then 0 else 1 + Position(ts[1..], t)
  }

  /** In an increasing sequence, the position of the i-th timestamp is i. */
  lemma PositionOfIndex(ts: seq<int>, i: nat)
    requires Increasing(ts) && i < |ts|
    ensures Position(ts, ts[i]) == i
  {
  }

  /** In the sorted index, the position of the i-th timestamp is i. */
  lemma SortedPosition(s: set<int>, i: nat)
    requires i < |Sorted(s)|
    ensures Position(Sorted(s), Sorted(s)[i]) == i
  {
    SortedIncreasing(s);
    PositionOfIndex(Sorted(s), i);
  }
}
