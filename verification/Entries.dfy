/** Tournament entries and what it means for a sequence of them to have no repeats. */
module Entries {

  /** An entry id; ids are compared as the service compares them, by a total order. */
  type Entry = nat

  predicate Distinct(s: seq<Entry>) {
    forall i, j | 0 <= i < j < |s| :: s[i] != s[j]
  }

  function Members(s: seq<Entry>): set<Entry> {
    set x | x in s
  }

  ghost predicate SameEntries(r: seq<Entry>, s: seq<Entry>) {
    forall x :: x in r <==> x in s
  }

  lemma {:induction false} CountMembers(s: seq<Entry>)
    requires Distinct(s)
    ensures |Members(s)| == |s|
  {
    if s != [] {
      var before, last := s[..|s| - 1], s[|s| - 1];
      CountMembers(before);
      assert s == before + [last];
      assert Members(s) == Members(before) + {last} && last !in Members(before);
    }
  }

  lemma {:induction false} SameLength(r: seq<Entry>, s: seq<Entry>)
    requires Distinct(r) && Distinct(s) && SameEntries(r, s)
    ensures |r| == |s|
  {
    CountMembers(r);
    CountMembers(s);
    assert forall x :: x in Members(r) <==> x in r;
    assert Members(r) == Members(s);
  }
}
