/** Iteration of `std::set` and `std::map`: the keys in ascending order. */
module Ordered {
  lemma Smallest(s: set<nat>) returns (m: nat)
    requires s != {}
    ensures m in s && forall x :: x in s ==> m <= x
    decreases s
  {
    var x :| x in s;
    var t := set y | y in s && y < x;
    if t == {} {
      m := x;
      assert forall y :: y in s && y < x ==> y in t;
    } else {
      assert x !in t;
      m := Smallest(t);
      assert forall y :: y in s && y < m ==> y in t;
    }
  }

  lemma MinExists(s: set<nat>)
    requires s != {}
    ensures exists m :: m in s && forall x :: x in s ==> m <= x
  {
    var m := Smallest(s);
  }

  ghost function Min(s: set<nat>): (m: nat)
    requires s != {}
    ensures m in s && forall x :: x in s ==> m <= x
  {
    MinExists(s);
    var m :| m in s && forall x :: x in s ==> m <= x;
    m
  }

  /** The elements of `s`, smallest first. */
  ghost function Ascending(s: set<nat>): seq<nat>
    decreases s
  {
    if s == {} then [] else [Min(s)] + Ascending(s - {Min(s)})
  }

  /** Each element once, in strictly increasing order. */
  lemma {:induction false} AscendingSorts(s: set<nat>)
    ensures |Ascending(s)| == |s|
    ensures forall x :: x in Ascending(s) <==> x in s
    ensures forall i, j :: 0 <= i < j < |Ascending(s)| ==> Ascending(s)[i] < Ascending(s)[j]
    decreases s
  {
    if s != {} {
      var m := Min(s);
      var t := Ascending(s - {m});
      AscendingSorts(s - {m});
      assert Ascending(s) == [m] + t;
      forall i, j | 0 <= i < j <= |t| ensures ([m] + t)[i] < ([m] + t)[j] {
        assert t[j - 1] in t;
      }
      assert s == (s - {m}) + {m};
    }
  }

  lemma NothingAscending()
    ensures Ascending({}) == []
  {
  }

  lemma AscendingStep(done: seq<nat>, s: set<nat>)
    requires s != {}
    ensures done + Ascending(s) == (done + [Min(s)]) + Ascending(s - {Min(s)})
  {
  }

  /** The step of an ascending iteration. */
  method TakeSmallest(s: set<nat>) returns (m: nat)
    requires s != {}
    ensures m == Min(s)
  {
    MinExists(s);
    m :| m in s && forall x | x in s :: m <= x;
  }
}
