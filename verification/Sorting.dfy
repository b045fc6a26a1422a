/** A stable sort by a strict order given as a function. */
module Sorting {

  /** A strict weak order: a strict order in which "neither before the other" is transitive. */
  ghost predicate StrictWeak<T(!new)>(before: (T, T) -> bool) {
    (forall x, y :: before(x, y) ==> !before(y, x)) &&
    (forall x, y, z :: before(x, y) && before(y, z) ==> before(x, z)) &&
    (forall x, y, z :: !before(x, y) && !before(y, z) ==> !before(x, z))
  }

  /** The same among the elements of a sequence. */
  ghost predicate StrictWeakOn<T>(before: (T, T) -> bool, s: seq<T>) {
    (forall x, y | x in s && y in s :: before(x, y) ==> !before(y, x)) &&
    (forall x, y, z | x in s && y in s && z in s :: before(x, y) && before(y, z) ==> before(x, z)) &&
    (forall x, y, z | x in s && y in s && z in s :: !before(x, y) && !before(y, z) ==> !before(x, z))
  }

  ghost predicate SortedBy<T>(before: (T, T) -> bool, s: seq<T>) {
    forall i, j | 0 <= i < j < |s| :: !before(s[j], s[i])
  }

  /** Puts x in front of the first element that does not come before it. */
  function Insert<T>(before: (T, T) -> bool, x: T, s: seq<T>): seq<T> {
    if s == [] || !before(s[0], x) then [x] + s else [s[0]] + Insert(before, x, s[1..])
  }

  function Sort<T>(before: (T, T) -> bool, s: seq<T>): seq<T> {
    if s == [] then [] else Insert(before, s[0], Sort(before, s[1..]))
  }

  lemma {:induction false} InsertAdds<T>(before: (T, T) -> bool, x: T, s: seq<T>)
    ensures multiset(Insert(before, x, s)) == multiset{x} + multiset(s)
    ensures |Insert(before, x, s)| == |s| + 1
  {
    if s != [] && before(s[0], x) {
      InsertAdds(before, x, s[1..]);
      assert s == [s[0]] + s[1..];
    }
  }

  lemma {:induction false} SortPermutes<T>(before: (T, T) -> bool, s: seq<T>)
    ensures multiset(Sort(before, s)) == multiset(s)
    ensures |Sort(before, s)| == |s|
  {
    if s != [] {
      SortPermutes(before, s[1..]);
      InsertAdds(before, s[0], Sort(before, s[1..]));
      assert s == [s[0]] + s[1..];
    }
  }

  lemma {:induction false} SortMembers<T>(before: (T, T) -> bool, s: seq<T>)
    ensures forall x :: x in Sort(before, s) <==> x in s
  {
    SortPermutes(before, s);
    forall x ensures x in Sort(before, s) <==> x in s {
      assert x in Sort(before, s) <==> x in multiset(Sort(before, s));
      assert x in s <==> x in multiset(s);
    }
  }

  lemma {:induction false} InsertSorted<T>(before: (T, T) -> bool, x: T, s: seq<T>, among: seq<T>)
    requires StrictWeakOn(before, among) && x in among && (forall y | y in s :: y in among) && SortedBy(before, s)
    ensures SortedBy(before, Insert(before, x, s))
  {
    if s != [] {
      if before(s[0], x) {
        InsertSorted(before, x, s[1..], among);
        InsertAdds(before, x, s[1..]);
        var r := Insert(before, x, s[1..]);
        forall j | 0 <= j < |r| ensures !before(r[j], s[0]) {
          assert r[j] in multiset(r);
          assert r[j] == x || r[j] in s[1..];
        }
      } else {
        forall j | 0 <= j < |s| ensures !before(s[j], x) {
        }
      }
    }
  }

  lemma {:induction false} SortSorts<T>(before: (T, T) -> bool, s: seq<T>)
    requires StrictWeakOn(before, s)
    ensures SortedBy(before, Sort(before, s))
  {
    SortSortsAmong(before, s, s);
  }

  lemma {:induction false} SortSortsAmong<T>(before: (T, T) -> bool, s: seq<T>, among: seq<T>)
    requires StrictWeakOn(before, among) && forall y | y in s :: y in among
    ensures SortedBy(before, Sort(before, s))
  {
    if s != [] {
      SortSortsAmong(before, s[1..], among);
      SortPermutes(before, s[1..]);
      forall y | y in Sort(before, s[1..]) ensures y in among {
        assert y in multiset(Sort(before, s[1..]));
        assert y in s[1..] && s == [s[0]] + s[1..];
      }
      InsertSorted(before, s[0], Sort(before, s[1..]), among);
    }
  }

  // ----- Elements that are pairwise apart stay so in any order -----

  ghost predicate Apart<T>(same: (T, T) -> bool, s: seq<T>) {
    forall i, j | 0 <= i < j < |s| :: !same(s[i], s[j])
  }

  lemma {:induction false} RepeatCounted<T>(r: seq<T>, i: nat, j: nat)
    requires i < j < |r| && r[i] == r[j]
    ensures multiset(r)[r[i]] >= 2
  {
    assert r == r[..i] + [r[i]] + r[i + 1..j] + [r[j]] + r[j + 1..];
  }

  lemma {:induction false} CountedOnce<T>(same: (T, T) -> bool, s: seq<T>, a: nat)
    requires a < |s| && same(s[a], s[a]) && Apart(same, s)
    ensures multiset(s)[s[a]] == 1
  {
    assert s == s[..a] + [s[a]] + s[a + 1..];
    assert s[a] !in s[..a] && s[a] !in s[a + 1..];
  }

  lemma {:induction false} PermutationApart<T(!new)>(same: (T, T) -> bool, s: seq<T>, r: seq<T>)
    requires forall x :: same(x, x)
    requires forall x, y :: same(x, y) ==> same(y, x)
    requires Apart(same, s) && multiset(r) == multiset(s)
    ensures Apart(same, r)
  {
    forall i, j | 0 <= i < j < |r| ensures !same(r[i], r[j]) {
      assert r[i] in multiset(r) && r[j] in multiset(r);
      var a :| 0 <= a < |s| && s[a] == r[i];
      var b :| 0 <= b < |s| && s[b] == r[j];
      CountedOnce(same, s, a);
      if r[i] == r[j] {
        RepeatCounted(r, i, j);
      }
    }
  }

  // ----- Elements arranged by an order have only one arrangement -----

  ghost predicate Arranged<T>(before: (T, T) -> bool, s: seq<T>) {
    forall i, j | 0 <= i < j < |s| :: before(s[i], s[j])
  }

  lemma {:induction false} ArrangedUnique<T(!new)>(before: (T, T) -> bool, r: seq<T>, q: seq<T>)
    requires forall x, y :: before(x, y) ==> !before(y, x)
    requires forall x :: x in r <==> x in q
    requires Arranged(before, r) && Arranged(before, q)
    ensures r == q
    decreases |r|
  {
    assert q == [] || q[0] in q;
    if r != [] {
      assert r[0] in r && r[0] in q;
      assert q[0] in q && q[0] in r;
      var i :| 0 <= i < |q| && q[i] == r[0];
      var j :| 0 <= j < |r| && r[j] == q[0];
      assert r[0] == q[0];
      forall x ensures x in r[1..] <==> x in q[1..] {
        assert x in r[1..] <==> x in r && x != r[0] by { ArrangedRest(before, r, x); }
        assert x in q[1..] <==> x in q && x != q[0] by { ArrangedRest(before, q, x); }
      }
      ArrangedUnique(before, r[1..], q[1..]);
    }
  }

  lemma {:induction false} ArrangedRest<T(!new)>(before: (T, T) -> bool, r: seq<T>, x: T)
    requires forall x, y :: before(x, y) ==> !before(y, x)
    requires r != [] && Arranged(before, r)
    ensures x in r[1..] <==> x in r && x != r[0]
  {
    assert r == [r[0]] + r[1..];
    assert forall j | 0 < j < |r| :: before(r[0], r[j]);
  }
}
