/** Finite sets of keys in ascending order: how the driver's sorted maps are walked. */
module Ordered {
  import opened Prelude

  ghost predicate Rising(s: seq<u64>) { forall i, j :: 0 <= i < j < |s| ==> s[i] < s[j] }

  ghost function Smallest(s: set<u64>): (m: u64)
    requires s != {}
    ensures m in s && forall x :: x in s ==> m <= x
  {
    var x :| x in s;
    if s == {x} then x
    else
      assert forall y :: y in s ==> y == x || y in s - {x};
      var m := Smallest(s - {x});
      if m < x then m else x
  }

  ghost function Ascending(s: set<u64>): (r: seq<u64>)
    ensures Rising(r) && forall x :: x in r <==> x in s
  {
    if s == {} then []
    else
      var m := Smallest(s);
      var rest := Ascending(s - {m});
      assert forall x :: x in [m] + rest <==> x == m || x in rest;
      assert forall i :: 0 <= i < |rest| ==> rest[i] in rest;
      [m] + rest
  }

  /** A rising list is the ascending walk of its own elements. */
  lemma {:induction false} AscendingIsUnique(s: set<u64>, r: seq<u64>)
    requires Rising(r) && forall x :: x in r <==> x in s
    ensures r == Ascending(s)
    decreases |r|
  {
    if r == [] {
      assert s == {};
    } else {
      assert r[0] in s;
      assert Smallest(s) in r;
      assert r == [r[0]] + r[1..];
      AscendingIsUnique(s - {r[0]}, r[1..]);
    }
  }

  method SmallestOf(s: set<u64>) returns (m: u64)
    requires s != {}
    ensures m == Smallest(s)
  {
    m :| m in s;
    var rest := s - {m};
    while rest != {}
      invariant m in s && rest <= s
      invariant forall x :: x in s && x !in rest ==> m <= x
      decreases rest
    {
      var x :| x in rest;
      rest := rest - {x};
      if x < m { m := x; }
    }
    assert m <= Smallest(s);
  }

  method AscendingKeys(s: set<u64>) returns (r: seq<u64>)
    ensures r == Ascending(s)
  {
    r := [];
    var rest := s;
    while rest != {}
      invariant r + Ascending(rest) == Ascending(s)
      decreases rest
    {
      var m := SmallestOf(rest);
      AscendingStep(r, rest);
      r, rest := r + [m], rest - {m};
    }
    assert r + [] == r;
  }

  lemma AscendingStep(r: seq<u64>, rest: set<u64>)
    requires rest != {}
    ensures r + Ascending(rest) == (r + [Smallest(rest)]) + Ascending(rest - {Smallest(rest)})
  {
    MoveOver(r, Smallest(rest), Ascending(rest - {Smallest(rest)}));
  }

  lemma MoveOver(r: seq<u64>, m: u64, tail: seq<u64>)
    ensures r + ([m] + tail) == (r + [m]) + tail
  {
  }
}
