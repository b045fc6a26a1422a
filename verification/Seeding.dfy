/** Pairing of a round: seeded crossing, sequential crossing, and byes. */
module Seeding {
  import opened Wrappers
  import opened Entries

  datatype Crossing = Standard | Sequential

  /** One slot of a round; without a second entry it is a bye. */
  datatype Pair = Pair(order: nat, entryA: Entry, entryB: Option<Entry>)

  // ----- Powers of two -----

  function Pow2(k: nat): nat {
    if k == 0 then 1 else 2 * Pow2(k - 1)
  }

  /** How many times n entries must be halved, rounding up, to leave one. */
  function CeilLog2(n: nat): nat {
    if n <= 1 then 0 else 1 + CeilLog2((n + 1) / 2)
  }

  lemma {:induction false} CeilLog2IsLeastExponent(n: nat)
    requires n >= 1
    ensures n <= Pow2(CeilLog2(n))
    ensures n >= 2 ==> Pow2(CeilLog2(n) - 1) < n
  {
    if n > 2 {
      CeilLog2IsLeastExponent((n + 1) / 2);
    }
  }

  lemma {:induction false} CeilLog2OfPow2(k: nat)
    ensures CeilLog2(Pow2(k)) == k
  {
    if k > 0 {
      CeilLog2OfPow2(k - 1);
    }
  }

  /** The bracket size the doubling loop stops at. */
  function BracketSize(n: nat): nat {
    if n <= 2 then 2 else Pow2(CeilLog2(n))
  }

  lemma {:induction false} BracketSizeIsLeastPowerOfTwo(n: nat)
    requires n >= 2
    ensures BracketSize(n) == Pow2(CeilLog2(n))
    ensures BracketSize(n) / 2 < n <= BracketSize(n)
    ensures BracketSize(n) % 2 == 0 && CeilLog2(n) >= 1
    ensures BracketSize(n) / 2 == Pow2(CeilLog2(n) - 1)
  {
    CeilLog2IsLeastExponent(n);
  }

  // ----- Pairs -----

  function SequentialPairs(entries: seq<Entry>): seq<Pair> {
    seq((|entries| + 1) / 2, i requires 0 <= i < (|entries| + 1) / 2 =>
      Pair(i + 1, entries[2 * i], if 2 * i + 1 < |entries| then Some(entries[2 * i + 1]) else None))
  }

  function StandardPairs(entries: seq<Entry>): seq<Pair>
    requires |entries| >= 2
  {
    var size := BracketSize(|entries|);
    assert size / 2 < |entries| <= size by { BracketSizeIsLeastPowerOfTwo(|entries|); }
    seq(size / 2, i requires 0 <= i < size / 2 =>
      Pair(i + 1, entries[i], if size - 1 - i < |entries| then Some(entries[size - 1 - i]) else None))
  }

  function SeedPairs(entries: seq<Entry>, crossing: Crossing): seq<Pair> {
    if |entries| < 2 then []
    else if crossing.Sequential? then SequentialPairs(entries)
    else StandardPairs(entries)
  }

  /** The 2i-th and (2i+1)-th place of a round are the two sides of its i-th pair. */
  function EntrantAt(pairs: seq<Pair>, k: nat): Option<Entry>
    requires k < 2 * |pairs|
  {
    if k % 2 == 0 then Some(pairs[k / 2].entryA) else pairs[k / 2].entryB
  }

  /** No entry sits in two places of the round. */
  predicate NoRepeats(pairs: seq<Pair>) {
    forall k, l | 0 <= k < l < 2 * |pairs| && EntrantAt(pairs, k).Some? :: EntrantAt(pairs, k) != EntrantAt(pairs, l)
  }

  ghost predicate Plays(pairs: seq<Pair>, entry: Entry) {
    exists k :: 0 <= k < 2 * |pairs| && EntrantAt(pairs, k) == Some(entry)
  }

  /** The round is played by exactly these entries. */
  ghost predicate Covers(pairs: seq<Pair>, entries: seq<Entry>) {
    forall e :: e in entries <==> Plays(pairs, e)
  }

  predicate OrdersCount(pairs: seq<Pair>) {
    forall i | 0 <= i < |pairs| :: pairs[i].order == i + 1
  }

  /** Place after place is taken in the order of the entries. */
  lemma {:induction false} SequentialPlaces(entries: seq<Entry>, k: nat)
    requires k < 2 * |SequentialPairs(entries)|
    ensures |SequentialPairs(entries)| == (|entries| + 1) / 2
    ensures EntrantAt(SequentialPairs(entries), k) == if k < |entries| then Some(entries[k]) else None
  {
  }

  lemma {:induction false} SequentialPairsUseEachOnce(entries: seq<Entry>)
    requires Distinct(entries)
    ensures NoRepeats(SequentialPairs(entries)) && Covers(SequentialPairs(entries), entries)
    ensures OrdersCount(SequentialPairs(entries))
    ensures forall i | 0 <= i < |SequentialPairs(entries)| ::
      SequentialPairs(entries)[i].entryB.None? <==> i == |entries| / 2
  {
    var pairs := SequentialPairs(entries);
    forall k | 0 <= k < 2 * |pairs|
      ensures EntrantAt(pairs, k) == if k < |entries| then Some(entries[k]) else None
    {
    }
    forall e | e in entries ensures Plays(pairs, e) {
      var j :| 0 <= j < |entries| && entries[j] == e;
      assert EntrantAt(pairs, j) == Some(e);
    }
  }

  /** The seed index at place k of a standard bracket of this size. */
  function StandardSeedAt(size: nat, k: nat): int {
    if k % 2 == 0 then k / 2 else size - 1 - k / 2
  }

  lemma {:induction false} StandardPlace(entries: seq<Entry>, k: nat)
    requires |entries| >= 2 && k < 2 * |StandardPairs(entries)|
    ensures
      var size := BracketSize(|entries|);
      var j := StandardSeedAt(size, k);
      0 <= j < size && EntrantAt(StandardPairs(entries), k) == if j < |entries| then Some(entries[j]) else None
  {
    BracketSizeIsLeastPowerOfTwo(|entries|);
  }

  lemma {:induction false} StandardUsesEachOnce(entries: seq<Entry>)
    requires |entries| >= 2 && Distinct(entries)
    ensures NoRepeats(StandardPairs(entries)) && Covers(StandardPairs(entries), entries)
  {
    var pairs, size := StandardPairs(entries), BracketSize(|entries|);
    BracketSizeIsLeastPowerOfTwo(|entries|);
    forall k, l | 0 <= k < l < 2 * |pairs| && EntrantAt(pairs, k).Some? ensures EntrantAt(pairs, k) != EntrantAt(pairs, l) {
      StandardPlace(entries, k);
      StandardPlace(entries, l);
      assert StandardSeedAt(size, k) != StandardSeedAt(size, l);
    }
    forall e ensures e in entries <==> Plays(pairs, e) {
      if e in entries {
        var j :| 0 <= j < |entries| && entries[j] == e;
        var k := if j < size / 2 then 2 * j else 2 * (size - 1 - j) + 1;
        StandardPlace(entries, k);
        assert EntrantAt(pairs, k) == Some(e);
      }
      if Plays(pairs, e) {
        var k: nat :| k < 2 * |pairs| && EntrantAt(pairs, k) == Some(e);
        StandardPlace(entries, k);
      }
    }
  }

  /** The published promise of the seeded crossing, over any number of entries. */
  lemma {:induction false} StandardSeeding(entries: seq<Entry>)
    requires |entries| >= 2 && Distinct(entries)
    ensures
      var pairs, n, size := StandardPairs(entries), |entries|, Pow2(CeilLog2(|entries|));
      // The size is the least power of two that holds everyone.
      && size / 2 < n <= size
      && |pairs| == size / 2
      && OrdersCount(pairs)
      // Everybody plays, and in one place only.
      && NoRepeats(pairs) && Covers(pairs, entries)
      // Byes go to exactly the top size - n seeds.
      && (forall i | 0 <= i < |pairs| :: pairs[i].entryB.None? <==> i < size - n)
      // The seeds of every real pair add up to size + 1.
      && (forall i | 0 <= i < |pairs| && pairs[i].entryB.Some? ::
            pairs[i].entryA == entries[i] && pairs[i].entryB == Some(entries[size - 1 - i]))
  {
    BracketSizeIsLeastPowerOfTwo(|entries|);
    StandardUsesEachOnce(entries);
  }

  // ----- The loops -----

  method SequentialPairsLoop(entries: seq<Entry>) returns (pairs: seq<Pair>)
    ensures pairs == SequentialPairs(entries)
  {
    pairs := [];
    var index := 0;
    while index < |entries|
      invariant index == 2 * |pairs| && |pairs| <= (|entries| + 1) / 2
      invariant pairs == SequentialPairs(entries)[..|pairs|]
    {
      pairs := pairs + [Pair(|pairs| + 1, entries[index], if index + 1 < |entries| then Some(entries[index + 1]) else None)];
      index := index + 2;
    }
  }

  method SeedPairsLoop(entries: seq<Entry>, crossing: Crossing) returns (pairs: seq<Pair>)
    ensures pairs == SeedPairs(entries, crossing)
  {
    pairs := [];
    if |entries| < 2 {
      return;
    }
    if crossing.Sequential? {
      pairs := SequentialPairsLoop(entries);
      return;
    }
    var size := 1;
    ghost var k := 0;
    while size < |entries|
      invariant size == Pow2(k) && k <= CeilLog2(|entries|)
      decreases CeilLog2(|entries|) - k
    {
      if k == CeilLog2(|entries|) {
        CeilLog2IsLeastExponent(|entries|);
      }
      k := k + 1;
      size := size * 2;
    }
    LeastExponentIsUnique(|entries|, k);
    size := if size < 2 then 2 else size;
    BracketSizeIsLeastPowerOfTwo(|entries|);
    var seeded: seq<Option<Entry>> := seq(size, i requires 0 <= i < size => if i < |entries| then Some(entries[i]) else None);
    var index := 0;
    while index < size / 2
      invariant 0 <= index <= size / 2 && |pairs| == index
      invariant pairs == StandardPairs(entries)[..index]
    {
      if seeded[index].Some? {
        pairs := pairs + [Pair(|pairs| + 1, seeded[index].value, seeded[size - 1 - index])];
      }
      index := index + 1;
    }
  }

  lemma {:induction false} Pow2Monotone(k: nat, l: nat)
    requires k <= l
    ensures Pow2(k) <= Pow2(l)
  {
    if k < l {
      Pow2Monotone(k, l - 1);
    }
  }

  lemma {:induction false} LeastExponentIsUnique(n: nat, k: nat)
    requires n >= 2 && k <= CeilLog2(n) && n <= Pow2(k)
    ensures k == CeilLog2(n)
  {
    CeilLog2IsLeastExponent(n);
    if k < CeilLog2(n) {
      Pow2Monotone(k, CeilLog2(n) - 1);
    }
  }
}
