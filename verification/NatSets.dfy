/** Least and greatest element of a set of numbers, and the set in ascending order. */
module NatSets {

  lemma {:induction false} Least(s: set<nat>) returns (least: nat)
    requires s != {}
    ensures least in s && forall x | x in s :: least <= x
  {
    var m :| m in s;
    least := m;
    if s != {m} {
      var k := Least(s - {m});
      least := if k < m then k else m;
      assert forall x | x in s :: x == m || x in s - {m};
    }
  }

  lemma {:induction false} MinExists(s: set<nat>)
    requires s != {}
    ensures exists m :: m in s && forall x | x in s :: m <= x
  {
    var m := Least(s);
  }

  function MinOf(s: set<nat>): (m: nat)
    requires s != {}
    ensures m in s && forall x | x in s :: m <= x
  {
    MinExists(s);
    var m :| m in s && forall x | x in s :: m <= x;
    m
  }

  lemma {:induction false} Greatest(s: set<nat>) returns (greatest: nat)
    requires s != {}
    ensures greatest in s && forall x | x in s :: x <= greatest
  {
    var m :| m in s;
    greatest := m;
    if s != {m} {
      var k := Greatest(s - {m});
      greatest := if k < m then m else k;
      assert forall x | x in s :: x == m || x in s - {m};
    }
  }

  lemma {:induction false} MaxExists(s: set<nat>)
    requires s != {}
    ensures exists m :: m in s && forall x | x in s :: x <= m
  {
    var m := Greatest(s);
  }

  function MaxOf(s: set<nat>): (m: nat)
    requires s != {}
    ensures m in s && forall x | x in s :: x <= m
  {
    MaxExists(s);
    var m :| m in s && forall x | x in s :: x <= m;
    m
  }

  predicate Ascending(r: seq<nat>) {
    forall i, j | 0 <= i < j < |r| :: r[i] < r[j]
  }

  function Sorted(s: set<nat>): (r: seq<nat>)
    ensures forall x :: x in r <==> x in s
    ensures Ascending(r)
  {
    if s == {} then []
    else
      var m := MinOf(s);
      [m] + Sorted(s - {m})
  }

  /** An ascending sequence is determined by its elements. */
  lemma {:induction false} AscendingUnique(r: seq<nat>, q: seq<nat>)
    requires Ascending(r) && Ascending(q)
    requires forall x :: x in r <==> x in q
    ensures r == q
    decreases |r|
  {
    assert q == [] || q[0] in q;
    if r != [] {
      assert r[0] in r;
      assert q[0] in q && r[0] in q && q[0] in r;
      var i :| 0 <= i < |q| && q[i] == r[0];
      var j :| 0 <= j < |r| && r[j] == q[0];
      assert r[0] == q[0];
      forall x ensures x in r[1..] <==> x in q[1..] {
        assert x in r[1..] <==> x in r && x != r[0];
        assert x in q[1..] <==> x in q && x != q[0];
      }
      AscendingUnique(r[1..], q[1..]);
    }
  }

  lemma {:induction false} SortedPair(s: set<nat>)
    requires |Sorted(s)| == 2
    ensures Sorted(s)[0] < Sorted(s)[1]
    ensures s == {Sorted(s)[0], Sorted(s)[1]}
  {
    var r := Sorted(s);
    assert r == [r[0], r[1]];
    forall x ensures x in s <==> x == r[0] || x == r[1] {
      assert x in s <==> x in r;
    }
  }
}
