/** The stored knockout phase and one recomputation of it. */
module KnockoutPhase {
  import opened Wrappers
  import opened Entries
  import opened NatSets
  import opened Statuses
  import opened Seeding

  /** A placement label of a published bracket, such as the winner of a group. */
  type Label = nat

  type Date = int

  datatype KoMatch = KoMatch(
    entryA: Option<Entry>,
    entryB: Option<Entry>,
    labelA: Option<Label>,
    labelB: Option<Label>,
    winner: Option<Entry>,
    status: Status,
    scheduledAt: Date,
    venue: nat)

  const TO_BE_DEFINED: nat := 0

  /** The matches of one round by bracket slot. */
  type Rows = map<nat, KoMatch>

  /** Entries that skip a round, by bracket slot. */
  type Byes = map<nat, Entry>

  /** Where the first round comes from: nothing yet, the entry list, or the classification phase. */
  datatype Source =
    | Pending
    | EntryList(slots: seq<Entry>)
    | Classified(slots: seq<Entry>, placed: map<Label, Entry>)

  datatype TournamentStatus = Draft | Published | Ongoing | Closed | Abandoned

  datatype Setup = Setup(crossing: Crossing, thirdPlaceMatch: bool)

  /** The knockout rows of a tournament; the third-place match has no slot. */
  datatype Bracket = Bracket(
    source: Source,
    rounds: map<nat, Rows>,
    third: Option<KoMatch>,
    byes: map<nat, Byes>)

  // ----- Reading a round -----

  predicate Filled(m: KoMatch) {
    m.entryA.Some? && m.entryB.Some?
  }

  /** All the matches of the round know both participants. */
  predicate Defined(rows: Rows) {
    rows != map[] && forall s | s in rows :: Filled(rows[s])
  }

  predicate AllOfficial(rows: Rows) {
    forall s | s in rows :: Official(rows[s].status)
  }

  predicate AllScheduled(rows: Rows) {
    forall s | s in rows :: rows[s].status.Scheduled?
  }

  predicate AllWon(rows: Rows) {
    forall s | s in rows :: rows[s].winner.Some?
  }

  predicate Complete(rows: Rows) {
    Defined(rows) && AllOfficial(rows) && AllWon(rows)
  }

  function RowsAt(b: Bracket, round: nat): Rows {
    if round in b.rounds then b.rounds[round] else map[]
  }

  function ByesAt(b: Bracket, round: nat): Byes {
    if round in b.byes then b.byes[round] else map[]
  }

  function DefinedRounds(b: Bracket): set<nat> {
    set r | r in b.rounds && Defined(b.rounds[r])
  }

  /** Slots of a round, those of matches and those of stored byes. */
  function SlotOrders(rows: Rows, byes: Byes): seq<nat> {
    Sorted(set s | s in rows.Keys + byes.Keys && s > 0)
  }

  /** Who goes on from a slot: the winner of its match, or the entry with the bye. */
  function AdvancerAt(rows: Rows, byes: Byes, slot: nat): Entry
    requires AllWon(rows) && slot in rows.Keys + byes.Keys
  {
    if slot in rows then rows[slot].winner.value else byes[slot]
  }

  function AdvancersFrom(rows: Rows, byes: Byes, slots: seq<nat>): (r: seq<Entry>)
    requires AllWon(rows) && forall s | s in slots :: s in rows.Keys + byes.Keys
    ensures |r| == |slots| && forall i | 0 <= i < |r| :: r[i] == AdvancerAt(rows, byes, slots[i])
  {
    if slots == [] then []
    else AdvancersFrom(rows, byes, slots[..|slots| - 1]) + [AdvancerAt(rows, byes, slots[|slots| - 1])]
  }

  /** Winners and byes of a round, in slot order. */
  function Advancers(rows: Rows, byes: Byes): seq<Entry>
    requires AllWon(rows)
  {
    AdvancersFrom(rows, byes, SlotOrders(rows, byes))
  }

  // ----- Filling a round -----

  function NewMatch(pair: Pair, date: Date): KoMatch {
    KoMatch(Some(pair.entryA), pair.entryB, None, None, None, Scheduled, date, TO_BE_DEFINED)
  }

  /** An existing match only learns who plays, and only while it is still scheduled. */
  function FillMatch(existing: Option<KoMatch>, pair: Pair, date: Date): KoMatch {
    if existing.None? then NewMatch(pair, date)
    else if !existing.value.status.Scheduled? then existing.value
    else existing.value.(entryA := Some(pair.entryA), entryB := pair.entryB, labelA := None, labelB := None)
  }

  function MatchAt(rows: Rows, slot: nat): Option<KoMatch> {
    if slot in rows then Some(rows[slot]) else None
  }

  function FillRound(rows: Rows, pairs: seq<Pair>, date: Date): Rows {
    if pairs == [] then rows
    else
      var pair := pairs[|pairs| - 1];
      var before := FillRound(rows, pairs[..|pairs| - 1], date);
      if pair.entryB.None? then before else before[pair.order := FillMatch(MatchAt(before, pair.order), pair, date)]
  }

  function ByesOf(pairs: seq<Pair>): Byes {
    if pairs == [] then map[]
    else
      var pair := pairs[|pairs| - 1];
      var before := ByesOf(pairs[..|pairs| - 1]);
      if pair.entryB.None? then before[pair.order := pair.entryA] else before
  }

  /** The round is created or filled and its byes are stored. */
  function WithRound(b: Bracket, round: nat, pairs: seq<Pair>, date: Date): Bracket {
    b.(rounds := b.rounds[round := FillRound(RowsAt(b, round), pairs, date)],
       byes := b.byes[round := ByesOf(pairs)])
  }

  // ----- The first round -----

  function Resolve(placed: map<Label, Entry>, tag: Option<Label>): Option<Entry> {
    if tag.Some? && tag.value in placed then Some(placed[tag.value]) else None
  }

  function PublishedPair(placed: map<Label, Entry>, slot: nat, m: KoMatch): Option<Pair> {
    var entryA, entryB := Resolve(placed, m.labelA), Resolve(placed, m.labelB);
    if entryA.None? || entryB.None? then None else Some(Pair(slot, entryA.value, entryB))
  }

  function PublishedPairsFrom(placed: map<Label, Entry>, rows: Rows, slots: seq<nat>): Option<seq<Pair>>
    requires forall s | s in slots :: s in rows
  {
    if slots == [] then Some([])
    else
      var slot := slots[|slots| - 1];
      var before := PublishedPairsFrom(placed, rows, slots[..|slots| - 1]);
      var last := PublishedPair(placed, slot, rows[slot]);
      if before.None? || last.None? then None else Some(before.value + [last.value])
  }

  /** All or nothing: every label resolves and no entry is named twice. */
  function PublishedPairs(source: Source, rows: Rows): Option<seq<Pair>> {
    if !source.Classified? || rows == map[] then None
    else
      var pairs := PublishedPairsFrom(source.placed, rows, Sorted(rows.Keys));
      if pairs.None? || !NoRepeats(pairs.value) then None else pairs
  }

  function FirstPairs(setup: Setup, b: Bracket): seq<Pair>
    requires !b.source.Pending?
  {
    var published := PublishedPairs(b.source, RowsAt(b, 1));
    if published.Some? then published.value else SeedPairs(b.source.slots, setup.crossing)
  }

  predicate HasMatch(pairs: seq<Pair>) {
    exists i :: 0 <= i < |pairs| && pairs[i].entryB.Some?
  }

  function CreateFirstRound(setup: Setup, b: Bracket, date: Date): Bracket {
    if b.source.Pending? || !HasMatch(FirstPairs(setup, b)) then b
    else WithRound(b, 1, FirstPairs(setup, b), date)
  }

  // ----- Later rounds -----

  function Loser(m: KoMatch): Option<Entry> {
    if m.winner == m.entryA then m.entryB else m.entryA
  }

  /** The pairing for third place, when exactly two matches leave exactly two entries. */
  function ThirdPair(rows: Rows, byes: Byes): Option<Pair>
    requires AllWon(rows)
  {
    var slots := Sorted(rows.Keys);
    if |Advancers(rows, byes)| != 2 || |slots| != 2 then None
    else
      assert slots[0] in slots && slots[1] in slots;
      var first, second := Loser(rows[slots[0]]), Loser(rows[slots[1]]);
      if first.None? || second.None? then None else Some(Pair(0, first.value, second))
  }

  function FillThird(existing: Option<KoMatch>, pair: Pair, date: Date): KoMatch {
    if existing.Some? && Filled(existing.value) then existing.value else FillMatch(existing, pair, date)
  }

  function ThirdPlace(setup: Setup, b: Bracket, round: nat, date: Date): Option<KoMatch>
    requires AllWon(RowsAt(b, round))
  {
    var pair := ThirdPair(RowsAt(b, round), ByesAt(b, round));
    if !setup.thirdPlaceMatch || pair.None? then b.third else Some(FillThird(b.third, pair.value, date))
  }

  /** What follows from the last defined round. */
  function Advance(setup: Setup, b: Bracket, last: nat, date: Date): Bracket {
    var rows := RowsAt(b, last);
    if !AllOfficial(rows) || !AllWon(rows) || |Advancers(rows, ByesAt(b, last))| <= 1 then b
    else
      var pairs := SequentialPairs(Advancers(rows, ByesAt(b, last)));
      WithRound(b, last + 1, pairs, date).(third := ThirdPlace(setup, b, last, date))
  }

  /** One recomputation of the knockout; new matches get the given date. */
  function Progress(setup: Setup, b: Bracket, date: Date): Bracket {
    if DefinedRounds(b) == {} then CreateFirstRound(setup, b, date)
    else Advance(setup, b, MaxOf(DefinedRounds(b)), date)
  }

  predicate ThirdPending(b: Bracket) {
    b.third.Some? && !Official(b.third.value.status)
  }

  /** The tournament's own status after the same recomputation. */
  function StatusAfter(setup: Setup, b: Bracket, status: TournamentStatus): TournamentStatus {
    if DefinedRounds(b) == {} then
      if b.source.Pending? || !HasMatch(FirstPairs(setup, b)) then status else Ongoing
    else
      var last := MaxOf(DefinedRounds(b));
      var rows := RowsAt(b, last);
      if !AllOfficial(rows) || !AllWon(rows) then status
      else if |Advancers(rows, ByesAt(b, last))| > 1 then Ongoing
      else if ThirdPending(b) then status
      else Closed
  }
}
