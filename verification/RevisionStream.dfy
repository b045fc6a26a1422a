/** The revision stream of one edition: commits, publishes, and one subscriber, in any interleaving. */
module RevisionStream {
  import opened Wrappers

  /** A message sent to the client; `id` is the stream position it can resume from. */
  datatype Event = Event(id: nat, revision: nat)

  /** A revision read for a heartbeat and not applied yet, and how long the stream was when it was read. */
  datatype Reading = Reading(revision: nat, seenTo: nat)

  /**
   * The subscriber reads its cursor first and the revision second.
   * Two history variables say which positions it has accounted for: those below `seenTo`, because a revision was
   * read when they were already published, and those from `from` up to the cursor, because they were delivered.
   */
  datatype Subscriber =
    | Away
    | Located(cursor: nat)
    | Open(cursor: nat, current: nat, emitted: seq<Event>, reading: Option<Reading>, from: nat, seenTo: nat)

  /** Position i of `log` has id i + 1; `trimmed` positions have been dropped by the length limit. */
  datatype World = World(
    committed: nat, pending: set<nat>, lost: set<nat>, log: seq<nat>, trimmed: nat, subscriber: Subscriber)

  /** The length below which a stream is never trimmed. */
  const MAX_LENGTH := 1000

  datatype Step =
    | Commit
    | Publish(revision: nat)
    | Lose(revision: nat)
    | Trim(upTo: nat)
    | ReadCursor(lastEventId: Option<nat>)
    | ReadRevision
    | Deliver
    | ReadForReconcile
    | Reconcile
    | ReconcileFails
    | Disconnect

  function Start(revision: nat, log: seq<nat>, trimmed: nat): World {
    World(revision, {}, {}, log, trimmed, Away)
  }

  ghost predicate Startable(revision: nat, log: seq<nat>, trimmed: nat) {
    trimmed <= |log| && forall i | 0 <= i < |log| :: log[i] <= revision
  }

  /** The position the next read of the stream starts at. */
  function NextPosition(w: World): nat
    requires w.subscriber.Open?
  {
    if w.subscriber.cursor < w.trimmed then w.trimmed else w.subscriber.cursor
  }

  predicate Enabled(w: World, step: Step) {
    match step
    case Commit => true
    case Publish(r) => r in w.pending
    case Lose(r) => r in w.pending
    case Trim(upTo) => w.trimmed <= upTo && upTo + MAX_LENGTH <= |w.log|
    case ReadCursor(_) => w.subscriber.Away?
    case ReadRevision => w.subscriber.Located?
    case Deliver => w.subscriber.Open? && NextPosition(w) < |w.log|
    case ReadForReconcile => w.subscriber.Open?
    case Reconcile => w.subscriber.Open? && w.subscriber.reading.Some?
    case ReconcileFails => w.subscriber.Open?
    case Disconnect => true
  }

  predicate ShouldEmit(current: nat, candidate: nat) {
    candidate > current
  }

  /** What the client sees of a revision that arrives. */
  function Emit(s: Subscriber, id: nat, revision: nat): (s': Subscriber)
    requires s.Open?
    ensures s'.Open? && s'.current >= s.current && s'.current >= revision
  {
    if ShouldEmit(s.current, revision)
    then s.(current := revision, emitted := s.emitted + [Event(id, revision)])
    else s
  }

  function Delivered(s: Subscriber, position: nat, revision: nat): Subscriber
    requires s.Open?
  {
    Emit(s.(cursor := position + 1, from := if position == s.cursor then s.from else position), position + 1, revision)
  }

  function Reconciled(s: Subscriber, reading: Reading): Subscriber
    requires s.Open?
  {
    var told := Emit(s, s.cursor, reading.revision);
    told.(reading := None, seenTo := if reading.seenTo > s.seenTo then reading.seenTo else s.seenTo)
  }

  function Next(w: World, step: Step): World
    requires Enabled(w, step)
  {
    match step
    case Commit => w.(committed := w.committed + 1, pending := w.pending + {w.committed + 1})
    case Publish(r) => w.(log := w.log + [r], pending := w.pending - {r})
    case Lose(r) => w.(pending := w.pending - {r}, lost := w.lost + {r})
    case Trim(upTo) => w.(trimmed := upTo)
    case ReadCursor(lastEventId) =>
      w.(subscriber := Located(if lastEventId.Some? then lastEventId.value else |w.log|))
    case ReadRevision =>
      var cursor := w.subscriber.cursor;
      w.(subscriber := Open(cursor, w.committed, [Event(cursor, w.committed)], None, cursor, |w.log|))
    case Deliver => w.(subscriber := Delivered(w.subscriber, NextPosition(w), w.log[NextPosition(w)]))
    case ReadForReconcile => w.(subscriber := w.subscriber.(reading := Some(Reading(w.committed, |w.log|))))
    case Reconcile => w.(subscriber := Reconciled(w.subscriber, w.subscriber.reading.value))
    case ReconcileFails => w.(subscriber := w.subscriber.(reading := None))
    case Disconnect => w.(subscriber := Away)
  }

  /** Steps that are not enabled do not happen. */
  function Run(w: World, steps: seq<Step>): World {
    if steps == [] then w
    else
      var before := Run(w, steps[..|steps| - 1]);
      var last := steps[|steps| - 1];
      if Enabled(before, last) then Next(before, last) else before
  }

  // ----- Invariant -----

  predicate Increasing(emitted: seq<Event>) {
    forall i, j | 0 <= i < j < |emitted| :: emitted[i].revision < emitted[j].revision && emitted[i].id <= emitted[j].id
  }

  /** The current revision is what the client was told last, and never ahead of the edition. */
  ghost predicate Told(start: nat, w: World) {
    w.subscriber.Open? ==>
      var s := w.subscriber;
      s.emitted != [] && s.emitted[|s.emitted| - 1].revision == s.current && start <= s.current <= w.committed &&
      s.emitted[|s.emitted| - 1].id <= s.cursor && Increasing(s.emitted) &&
      (s.reading.Some? ==> s.reading.value.revision <= w.committed)
  }

  /** Every revision after the first is on its way, lost, or published, and nothing else is. */
  ghost predicate Accounted(start: nat, w: World) {
    start <= w.committed && w.trimmed <= |w.log| &&
    (forall r | r in w.pending || r in w.lost || r in w.log :: r <= w.committed) &&
    (forall r: nat | start < r <= w.committed :: r in w.pending || r in w.lost || r in w.log)
  }

  ghost predicate SeenByReading(w: World, revision: nat, seenTo: nat) {
    seenTo <= |w.log| && forall i | 0 <= i < seenTo :: w.log[i] <= revision
  }

  /** Every position the subscriber has accounted for holds a revision it has reached. */
  ghost predicate Reached(w: World) {
    w.subscriber.Open? ==>
      var s := w.subscriber;
      SeenByReading(w, s.current, s.seenTo) && s.from <= s.cursor && (s.from < s.cursor ==> s.cursor <= |w.log|) &&
      (forall i | s.from <= i < s.cursor && i < |w.log| :: w.log[i] <= s.current) &&
      (s.reading.Some? ==> SeenByReading(w, s.reading.value.revision, s.reading.value.seenTo))
  }

  ghost predicate Sound(start: nat, w: World) {
    Told(start, w) && Accounted(start, w) && Reached(w)
  }

  lemma {:induction false} NextKeepsTold(start: nat, w: World, step: Step)
    requires Told(start, w) && Accounted(start, w) && Enabled(w, step)
    ensures Told(start, Next(w, step))
  {
    if step.Deliver? {
      assert w.log[NextPosition(w)] in w.log;
    }
  }

  lemma {:induction false} NextKeepsAccounted(start: nat, w: World, step: Step)
    requires Told(start, w) && Accounted(start, w) && Enabled(w, step)
    ensures Accounted(start, Next(w, step))
  {
    if step.Publish? {
      var w' := Next(w, step);
      assert w'.log == w.log + [step.revision];
      forall r: nat | start < r <= w.committed ensures r in w'.pending || r in w'.lost || r in w'.log {
        assert r in w.pending || r in w.lost || r in w.log;
        assert r == step.revision ==> w'.log[|w.log|] == r;
      }
    }
  }

  lemma {:induction false} NextKeepsReached(start: nat, w: World, step: Step)
    requires Sound(start, w) && Enabled(w, step)
    ensures Reached(Next(w, step))
  {
    match step
    case ReadRevision =>
      assert forall i | 0 <= i < |w.log| :: w.log[i] in w.log;
    case ReadForReconcile =>
      assert forall i | 0 <= i < |w.log| :: w.log[i] in w.log;
    case _ =>
  }

  lemma {:induction false} EveryRunSound(revision: nat, log: seq<nat>, trimmed: nat, steps: seq<Step>)
    requires Startable(revision, log, trimmed)
    ensures Sound(revision, Run(Start(revision, log, trimmed), steps))
    decreases |steps|
  {
    if steps != [] {
      var before := steps[..|steps| - 1];
      EveryRunSound(revision, log, trimmed, before);
      var w, step := Run(Start(revision, log, trimmed), before), steps[|steps| - 1];
      if Enabled(w, step) {
        NextKeepsSound(revision, w, step);
      }
    }
  }

  // ----- What the client can rely on -----

  /** In every interleaving, what one connection emits strictly increases and never passes what is committed. */
  lemma {:induction false} EmittedIncreasesUpToCommitted(revision: nat, log: seq<nat>, trimmed: nat, steps: seq<Step>)
    requires Startable(revision, log, trimmed)
    ensures
      var w := Run(Start(revision, log, trimmed), steps);
      w.subscriber.Open? ==>
        Increasing(w.subscriber.emitted) &&
        forall i | 0 <= i < |w.subscriber.emitted| :: w.subscriber.emitted[i].revision <= w.committed
  {
    EveryRunSound(revision, log, trimmed, steps);
    var w := Run(Start(revision, log, trimmed), steps);
    if w.subscriber.Open? {
      var emitted := w.subscriber.emitted;
      var last := |emitted| - 1;
      assert forall i | 0 <= i < |emitted| :: i == last || emitted[i].revision < emitted[last].revision;
    }
  }

  /** The subscriber has read the stream to its end, and passed no position unseen. */
  predicate Consumed(w: World) {
    w.subscriber.Open? && w.subscriber.cursor >= |w.log| && w.subscriber.from <= w.subscriber.seenTo
  }

  /**
   * A subscriber that consumed the stream is at or past every published revision, whatever order they were
   * published in; when none is lost or on its way, it is at the committed revision.
   */
  lemma {:induction false} ConsumedIsUpToDate(revision: nat, log: seq<nat>, trimmed: nat, steps: seq<Step>)
    requires Startable(revision, log, trimmed)
    ensures
      var w := Run(Start(revision, log, trimmed), steps);
      Consumed(w) ==>
        (forall r | r in w.log :: r <= w.subscriber.current) &&
        (w.pending == {} && w.lost == {} ==> w.subscriber.current == w.committed)
  {
    EveryRunSound(revision, log, trimmed, steps);
    var w := Run(Start(revision, log, trimmed), steps);
    if Consumed(w) {
      forall r | r in w.log ensures r <= w.subscriber.current {
        var i :| 0 <= i < |w.log| && w.log[i] == r;
        assert i < w.subscriber.seenTo || w.subscriber.from <= i < w.subscriber.cursor;
      }
      if w.pending == {} && w.lost == {} && w.committed > revision {
        assert w.committed in w.log;
      }
    }
  }

  // ----- Where a connection starts -----

  /** Everything sent on the connection is from this position on. */
  ghost predicate SendsFrom(w: World, position: nat) {
    match w.subscriber
    case Away => false
    case Located(cursor) => cursor >= position
    case Open(cursor, _, emitted, _, _, _) =>
      cursor >= position && forall i | 0 <= i < |emitted| :: emitted[i].id >= position
  }

  lemma {:induction false} RunSendsFrom(w: World, steps: seq<Step>, position: nat)
    requires SendsFrom(w, position) && forall i | 0 <= i < |steps| :: !steps[i].Disconnect?
    ensures SendsFrom(Run(w, steps), position)
    decreases |steps|
  {
    if steps != [] {
      var n := |steps| - 1;
      RunSendsFrom(w, steps[..n], position);
      assert !steps[n].Disconnect?;
    }
  }

  /** A connection without an id starts at the end of the stream, one with an id at that id; it never goes back. */
  lemma {:induction false} ConnectionStartsWhereAsked(w: World, lastEventId: Option<nat>, steps: seq<Step>)
    requires w.subscriber.Away? && forall i | 0 <= i < |steps| :: !steps[i].Disconnect?
    ensures
      var first := if lastEventId.Some? then lastEventId.value else |w.log|;
      && Next(w, ReadCursor(lastEventId)).subscriber == Located(first)
      && SendsFrom(Run(Next(w, ReadCursor(lastEventId)), steps), first)
  {
    var first := if lastEventId.Some? then lastEventId.value else |w.log|;
    RunSendsFrom(Next(w, ReadCursor(lastEventId)), steps, first);
  }

  /** A delivered message moves the cursor behind its position; if it is sent on, then with that id and its revision. */
  lemma {:induction false} DeliveryCarriesItsPosition(w: World)
    requires Enabled(w, Deliver)
    ensures
      var s, s' := w.subscriber, Next(w, Deliver).subscriber;
      && s'.cursor == (if s.cursor >= w.trimmed then s.cursor else w.trimmed) + 1
      && (w.log[s'.cursor - 1] > s.current ==> s'.emitted == s.emitted + [Event(s'.cursor, w.log[s'.cursor - 1])])
      && (w.log[s'.cursor - 1] <= s.current ==> s'.emitted == s.emitted)
  {
  }

  // ----- When a subscriber stays up to date -----

  /** The subscriber has nothing left to read, and is behind a published revision only if this fails. */
  ghost predicate CaughtUp(w: World) {
    w.subscriber.Open? && NextPosition(w) >= |w.log| ==> forall r | r in w.log :: r <= w.subscriber.current
  }

  /** The revision at a position has reached the client, or will be overtaken by one still to be read. */
  ghost predicate Coverable(w: World, i: nat)
    requires w.subscriber.Open? && i < |w.log|
  {
    w.log[i] <= w.subscriber.current || exists j :: NextPosition(w) <= j < |w.log| && w.log[i] <= w.log[j]
  }

  ghost predicate CoverableFrom(w: World, first: nat)
    requires w.subscriber.Open?
  {
    forall i | first <= i < |w.log| :: Coverable(w, i)
  }

  ghost predicate Recoverable(w: World) {
    w.subscriber.Open? ==> w.subscriber.cursor <= |w.log| && CoverableFrom(w, 0)
  }

  /**
   * The revision is read when the stream has reached the position the client resumes from, and the length limit does
   * not drop a position that an open subscriber has neither read nor covered by reading a revision.
   */
  predicate Careful(w: World, step: Step) {
    match step
    case ReadRevision => w.subscriber.Located? ==> w.subscriber.cursor <= |w.log|
    case Trim(upTo) => w.subscriber.Open? ==> upTo <= w.subscriber.cursor || upTo <= w.subscriber.seenTo
    case _ => true
  }

  predicate CarefulRun(w: World, steps: seq<Step>) {
    steps == [] ||
    (CarefulRun(w, steps[..|steps| - 1]) && Careful(Run(w, steps[..|steps| - 1]), steps[|steps| - 1]))
  }

  lemma {:induction false} NextKeepsSound(start: nat, w: World, step: Step)
    requires Sound(start, w) && Enabled(w, step)
    ensures Sound(start, Next(w, step))
  {
    NextKeepsTold(start, w, step);
    NextKeepsAccounted(start, w, step);
    NextKeepsReached(start, w, step);
  }

  lemma {:induction false} RunKeepsSound(start: nat, w: World, steps: seq<Step>)
    requires Sound(start, w)
    ensures Sound(start, Run(w, steps))
    decreases |steps|
  {
    if steps != [] {
      var before := steps[..|steps| - 1];
      RunKeepsSound(start, w, before);
      if Enabled(Run(w, before), steps[|steps| - 1]) {
        NextKeepsSound(start, Run(w, before), steps[|steps| - 1]);
      }
    }
  }

  lemma {:induction false} NextKeepsCoverable(start: nat, w: World, step: Step, i: nat)
    requires Sound(start, w) && Enabled(w, step) && Careful(w, step)
    requires w.subscriber.Open? && !step.Disconnect? && w.subscriber.cursor <= |w.log|
    requires i < |w.log| && Coverable(w, i)
    ensures Coverable(Next(w, step), i)
  {
    var w' := Next(w, step);
    if w.log[i] > w.subscriber.current {
      var j :| NextPosition(w) <= j < |w.log| && w.log[i] <= w.log[j];
      assert w'.log[j] == w.log[j] && w'.log[i] == w.log[i];
      assert j >= NextPosition(w') || w.log[j] <= w'.subscriber.current;
    }
  }

  /** A newly published position is one still to be read. */
  lemma {:induction false} NextKeepsCoverableFrom(start: nat, w: World, step: Step, first: nat)
    requires Sound(start, w) && Enabled(w, step) && Careful(w, step)
    requires w.subscriber.Open? && !step.Disconnect? && w.subscriber.cursor <= |w.log|
    requires CoverableFrom(w, first)
    ensures CoverableFrom(Next(w, step), first)
  {
    var w' := Next(w, step);
    forall i | first <= i < |w'.log| ensures Coverable(w', i) {
      if i < |w.log| {
        NextKeepsCoverable(start, w, step, i);
      } else {
        assert NextPosition(w') <= i && w'.log[i] <= w'.log[i];
      }
    }
  }

  lemma {:induction false} NextKeepsRecoverable(start: nat, w: World, step: Step)
    requires Sound(start, w) && Recoverable(w) && Enabled(w, step) && Careful(w, step)
    ensures Recoverable(Next(w, step))
  {
    if w.subscriber.Open? && !step.Disconnect? {
      NextKeepsCoverableFrom(start, w, step, 0);
    } else if step.ReadRevision? {
      assert forall i | 0 <= i < |w.log| :: w.log[i] in w.log;
    }
  }

  lemma {:induction false} RunKeepsRecoverable(start: nat, w: World, steps: seq<Step>)
    requires Sound(start, w) && Recoverable(w) && CarefulRun(w, steps)
    ensures Recoverable(Run(w, steps))
    decreases |steps|
  {
    if steps != [] {
      var before := steps[..|steps| - 1];
      RunKeepsSound(start, w, before);
      RunKeepsRecoverable(start, w, before);
      if Enabled(Run(w, before), steps[|steps| - 1]) {
        NextKeepsRecoverable(start, Run(w, before), steps[|steps| - 1]);
      }
    }
  }

  lemma {:induction false} RecoverableIsCaughtUp(w: World)
    requires Recoverable(w)
    ensures CaughtUp(w)
  {
    if w.subscriber.Open? && NextPosition(w) >= |w.log| {
      forall r | r in w.log ensures r <= w.subscriber.current {
        var i :| 0 <= i < |w.log| && w.log[i] == r;
        assert Coverable(w, i);
      }
    }
  }

  /** Once a careful run has delivered the whole stream, the client is at or past everything published. */
  lemma {:induction false} CarefulSubscriberIsUpToDate(revision: nat, log: seq<nat>, trimmed: nat, steps: seq<Step>)
    requires Startable(revision, log, trimmed) && CarefulRun(Start(revision, log, trimmed), steps)
    ensures CaughtUp(Run(Start(revision, log, trimmed), steps))
  {
    RunKeepsRecoverable(revision, Start(revision, log, trimmed), steps);
    RecoverableIsCaughtUp(Run(Start(revision, log, trimmed), steps));
  }

  /** However the run goes on, the client is never left behind at the end of the stream. */
  ghost predicate StaysUpToDate(w: World) {
    forall steps | CarefulRun(w, steps) :: CaughtUp(Run(w, steps))
  }

  /**
   * An open subscriber stays up to date exactly when its cursor is not past the end of the stream and every published
   * revision has reached it or is overtaken by one it has yet to read.
   */
  lemma {:induction false} UpToDateExactly(start: nat, w: World)
    requires Sound(start, w) && w.subscriber.Open?
    ensures StaysUpToDate(w) <==> Recoverable(w)
  {
    if Recoverable(w) {
      forall steps | CarefulRun(w, steps) ensures CaughtUp(Run(w, steps)) {
        RunKeepsRecoverable(start, w, steps);
        RecoverableIsCaughtUp(Run(w, steps));
      }
    } else if w.subscriber.cursor > |w.log| {
      PublishedBehindCursor(start, w);
    } else {
      var i: nat :| i < |w.log| && !Coverable(w, i);
      DrainedStaysBelow(w, w.log[i] - 1);
      var deliveries := DrainedIsRun(w);
      DeliveriesAreCareful(w, deliveries);
      assert w.log[i] in Drained(w).log;
    }
  }

  /** The next revision lands before the cursor and is never read. */
  lemma {:induction false} PublishedBehindCursor(start: nat, w: World)
    requires Sound(start, w) && w.subscriber.Open? && w.subscriber.cursor > |w.log|
    ensures !StaysUpToDate(w)
  {
    var r := w.committed + 1;
    RunOne(w, Commit);
    RunExtended(w, [Commit], Publish(r));
    assert [Commit] + [Publish(r)] == [Commit, Publish(r)];
    var w' := Run(w, [Commit, Publish(r)]);
    assert w'.log == w.log + [r] && r in w'.log;
    assert [Commit, Publish(r)][..1] == [Commit] && [Commit][..0] == [];
    assert CarefulRun(w, [Commit]) && CarefulRun(w, [Commit, Publish(r)]);
    assert !CaughtUp(w');
  }

  lemma {:induction false} DeliveriesAreCareful(w: World, deliveries: seq<Step>)
    requires forall k | 0 <= k < |deliveries| :: deliveries[k] == Deliver
    ensures CarefulRun(w, deliveries)
    decreases |deliveries|
  {
    if deliveries != [] {
      DeliveriesAreCareful(w, deliveries[..|deliveries| - 1]);
    }
  }

  /**
   * After any run, a connection that resumes from a position and reads the revision now stays up to date exactly when
   * the stream has reached that position.
   */
  lemma {:induction false} ResumedIsUpToDateExactly(revision: nat, log: seq<nat>, trimmed: nat, steps: seq<Step>)
    requires Startable(revision, log, trimmed) && Run(Start(revision, log, trimmed), steps).subscriber.Located?
    ensures
      var w := Run(Start(revision, log, trimmed), steps);
      StaysUpToDate(Next(w, ReadRevision)) <==> w.subscriber.cursor <= |w.log|
  {
    var w := Run(Start(revision, log, trimmed), steps);
    EveryRunSound(revision, log, trimmed, steps);
    NextKeepsSound(revision, w, ReadRevision);
    UpToDateExactly(revision, Next(w, ReadRevision));
    assert forall i | 0 <= i < |w.log| :: w.log[i] in w.log;
  }

  /** What the length limit drops is known to the client, or older than something that is kept. */
  ghost predicate DropsOvertaken(w: World, upTo: nat)
    requires w.subscriber.Open? && upTo <= |w.log|
  {
    forall i | w.subscriber.cursor <= i < upTo ::
      w.log[i] <= w.subscriber.current || exists j :: upTo <= j < |w.log| && w.log[i] <= w.log[j]
  }

  /** Trimming a stream leaves an up-to-date subscriber so exactly when every unread revision it drops is overtaken. */
  lemma {:induction false} TrimKeepsUpToDateExactly(start: nat, w: World, upTo: nat)
    requires Sound(start, w) && w.subscriber.Open? && StaysUpToDate(w) && Enabled(w, Trim(upTo))
    ensures StaysUpToDate(Next(w, Trim(upTo))) <==> DropsOvertaken(w, upTo)
  {
    var w' := Next(w, Trim(upTo));
    UpToDateExactly(start, w);
    NextKeepsSound(start, w, Trim(upTo));
    UpToDateExactly(start, w');
    if Recoverable(w') {
      forall i | w.subscriber.cursor <= i < upTo
        ensures w.log[i] <= w.subscriber.current || exists j :: upTo <= j < |w.log| && w.log[i] <= w.log[j]
      {
        assert Coverable(w', i);
      }
    }
    if DropsOvertaken(w, upTo) {
      forall i | 0 <= i < |w.log| ensures Coverable(w', i) {
        TrimmedIsCoverable(w, upTo, i);
      }
    }
  }

  lemma {:induction false} TrimmedIsCoverable(w: World, upTo: nat, i: nat)
    requires w.subscriber.Open? && Enabled(w, Trim(upTo)) && DropsOvertaken(w, upTo)
    requires i < |w.log| && Coverable(w, i)
    ensures Coverable(Next(w, Trim(upTo)), i)
  {
    var w' := Next(w, Trim(upTo));
    if w.log[i] > w.subscriber.current {
      var j :| NextPosition(w) <= j < |w.log| && w.log[i] <= w.log[j];
      if j < upTo {
        assert w.subscriber.cursor <= j;
        var k :| upTo <= k < |w.log| && w.log[j] <= w.log[k];
        assert NextPosition(w') <= k;
      } else {
        assert NextPosition(w') <= j;
      }
    }
  }

  // ----- Heartbeats -----

  /** Nothing in between ends the connection or makes its heartbeat fail. */
  predicate Undisturbed(steps: seq<Step>) {
    forall step | step in steps :: !step.Disconnect? && !step.ReconcileFails?
  }

  ghost predicate Promised(w: World, revision: nat) {
    w.subscriber.Open? &&
    (w.subscriber.current >= revision ||
     (w.subscriber.reading.Some? && w.subscriber.reading.value.revision >= revision))
  }

  lemma {:induction false} RunKeepsPromise(start: nat, w: World, steps: seq<Step>, revision: nat)
    requires Sound(start, w) && Promised(w, revision) && revision <= w.committed && Undisturbed(steps)
    ensures Promised(Run(w, steps), revision) && revision <= Run(w, steps).committed
    decreases |steps|
  {
    if steps != [] {
      var before, step := steps[..|steps| - 1], steps[|steps| - 1];
      assert step in steps && forall x | x in before :: x in steps;
      RunKeepsPromise(start, w, before, revision);
      RunKeepsSound(start, w, before);
    }
  }

  /** A heartbeat leaves the client at or past what was committed when it read it, whatever happens in between. */
  lemma {:induction false} HeartbeatCatchesUp(start: nat, w: World, steps: seq<Step>)
    requires Sound(start, w) && w.subscriber.Open? && Undisturbed(steps)
    ensures
      var w' := Run(Next(w, ReadForReconcile), steps + [Reconcile]);
      w'.subscriber.Open? && w.committed <= w'.subscriber.current <= w'.committed
  {
    var read := Next(w, ReadForReconcile);
    NextKeepsSound(start, w, ReadForReconcile);
    RunKeepsPromise(start, read, steps, w.committed);
    RunExtended(read, steps, Reconcile);
    RunKeepsSound(start, read, steps + [Reconcile]);
  }

  /** The reading that is waiting to be applied covers everything that is not coverable otherwise. */
  ghost predicate Mending(w: World) {
    w.subscriber.Open? && w.subscriber.cursor <= |w.log| &&
    (CoverableFrom(w, 0) ||
     (w.subscriber.reading.Some? && CoverableFrom(w, w.subscriber.reading.value.seenTo)))
  }

  lemma {:induction false} NextKeepsMending(start: nat, w: World, step: Step)
    requires Sound(start, w) && Mending(w) && Enabled(w, step) && Careful(w, step)
    requires !step.Disconnect? && !step.ReconcileFails?
    ensures Mending(Next(w, step))
    ensures step.Reconcile? ==> CoverableFrom(Next(w, step), 0)
  {
    var w' := Next(w, step);
    if CoverableFrom(w, 0) {
      NextKeepsCoverableFrom(start, w, step, 0);
    } else {
      var first := w.subscriber.reading.value.seenTo;
      NextKeepsCoverableFrom(start, w, step, first);
      if step.Reconcile? {
        forall i | 0 <= i < |w'.log| ensures Coverable(w', i) {
          assert i < first ==> w.log[i] <= w.subscriber.reading.value.revision;
        }
      }
    }
  }

  lemma {:induction false} RunKeepsMending(start: nat, w: World, steps: seq<Step>)
    requires Sound(start, w) && Mending(w) && CarefulRun(w, steps) && Undisturbed(steps)
    ensures Mending(Run(w, steps))
    decreases |steps|
  {
    if steps != [] {
      var before, step := steps[..|steps| - 1], steps[|steps| - 1];
      assert step in steps && forall x | x in before :: x in steps;
      RunKeepsMending(start, w, before);
      RunKeepsSound(start, w, before);
      if Enabled(Run(w, before), step) {
        NextKeepsMending(start, Run(w, before), step);
      }
    }
  }

  /**
   * A heartbeat puts a subscriber that was left behind back on track for good, unless its cursor is past the end of
   * the stream when the revision is read.
   */
  lemma {:induction false} HeartbeatRestoresUpToDate(start: nat, w: World, steps: seq<Step>)
    requires Sound(start, w) && w.subscriber.Open? && w.subscriber.cursor <= |w.log|
    requires CarefulRun(Next(w, ReadForReconcile), steps) && Undisturbed(steps)
    ensures StaysUpToDate(Run(Next(w, ReadForReconcile), steps + [Reconcile]))
  {
    var read := Next(w, ReadForReconcile);
    NextKeepsSound(start, w, ReadForReconcile);
    RunKeepsMending(start, read, steps);
    RunKeepsSound(start, read, steps);
    RunExtended(read, steps, Reconcile);
    var late := Run(read, steps);
    if Enabled(late, Reconcile) {
      NextKeepsMending(start, late, Reconcile);
      NextKeepsSound(start, late, Reconcile);
      UpToDateExactly(start, Next(late, Reconcile));
    } else {
      UpToDateExactly(start, late);
    }
  }

  lemma {:induction false} RunExtended(w: World, steps: seq<Step>, step: Step)
    ensures
      Run(w, steps + [step]) == if Enabled(Run(w, steps), step) then Next(Run(w, steps), step) else Run(w, steps)
  {
    assert (steps + [step])[..|steps|] == steps;
  }

  // ----- Draining the stream -----

  /** Every delivery the stream has to offer. */
  function Drained(w: World): World
    decreases if w.subscriber.Open? then |w.log| - NextPosition(w) else 0
  {
    if Enabled(w, Deliver) then Drained(Next(w, Deliver)) else w
  }

  /** Draining is a run of deliveries, so everything above holds after it. */
  lemma {:induction false} DrainedIsRun(w: World) returns (deliveries: seq<Step>)
    ensures Drained(w) == Run(w, deliveries) && forall k | 0 <= k < |deliveries| :: deliveries[k] == Deliver
    decreases if w.subscriber.Open? then |w.log| - NextPosition(w) else 0
  {
    deliveries := [];
    if Enabled(w, Deliver) {
      var rest := DrainedIsRun(Next(w, Deliver));
      RunFirst(w, rest);
      deliveries := [Deliver] + rest;
    }
  }

  lemma {:induction false} RunFirst(w: World, rest: seq<Step>)
    requires Enabled(w, Deliver)
    ensures Run(w, [Deliver] + rest) == Run(Next(w, Deliver), rest)
    decreases |rest|
  {
    if rest == [] {
      RunExtended(w, [], Deliver);
      assert [] + [Deliver] == [Deliver] + rest;
      assert Run(w, []) == w;
    } else {
      var n := |rest| - 1;
      RunFirst(w, rest[..n]);
      assert ([Deliver] + rest)[..n + 1] == [Deliver] + rest[..n];
    }
  }

  // ----- The length limit can drop a revision before an open subscriber reads it -----

  predicate Within(low: nat, r: nat, high: nat) {
    low <= r <= high
  }

  function Between(low: nat, high: nat): set<nat> {
    set r: nat | r <= high && Within(low, r, high)
  }

  function Commits(n: nat): seq<Step> {
    if n == 0 then [] else Commits(n - 1) + [Commit]
  }

  /** Publishes revisions 1 to n in order. */
  function Publishes(n: nat): seq<Step> {
    if n == 0 then [] else Publishes(n - 1) + [Publish(n)]
  }

  function UpTo(n: nat): (revisions: seq<nat>)
    ensures |revisions| == n && forall i | 0 <= i < n :: revisions[i] == i + 1
  {
    if n == 0 then [] else UpTo(n - 1) + [n]
  }

  lemma {:induction false} BetweenGrows(n: nat)
    requires n > 0
    ensures Between(1, n) == Between(1, n - 1) + {n} && Between(1, n) - {n} == Between(1, n - 1)
  {
  }

  lemma {:induction false} BetweenShrinks(n: nat, last: nat)
    ensures Between(n, last) - {n} == Between(n + 1, last) && (n <= last ==> n in Between(n, last))
  {
  }

  lemma {:induction false} AfterCommits(w: World, n: nat)
    requires w.committed == 0 && w.pending == {}
    ensures Run(w, Commits(n)) == w.(committed := n, pending := Between(1, n))
  {
    if n > 0 {
      AfterCommits(w, n - 1);
      RunExtended(w, Commits(n - 1), Commit);
      BetweenGrows(n);
    } else {
      assert Between(1, 0) == {};
    }
  }

  lemma {:induction false} AfterPublishes(w: World, n: nat, last: nat)
    requires w.pending == Between(1, last) && n <= last
    ensures Run(w, Publishes(n)) == w.(log := w.log + UpTo(n), pending := Between(n + 1, last))
  {
    if n > 0 {
      AfterPublishes(w, n - 1, last);
      RunExtended(w, Publishes(n - 1), Publish(n));
      BetweenShrinks(n, last);
      assert w.log + UpTo(n - 1) + [n] == w.log + UpTo(n);
    } else {
      assert w.log + UpTo(0) == w.log;
    }
  }

  lemma {:induction false} RunJoined(w: World, first: seq<Step>, second: seq<Step>)
    ensures Run(w, first + second) == Run(Run(w, first), second)
    decreases |second|
  {
    if second == [] {
      assert first + second == first;
    } else {
      var n := |second| - 1;
      assert (first + second)[..|first| + n] == first + second[..n];
      RunJoined(w, first, second[..n]);
    }
  }

  lemma {:induction false} DrainedStaysBelow(w: World, bound: nat)
    requires w.subscriber.Open? && w.subscriber.current <= bound && w.trimmed <= |w.log|
    requires forall i | NextPosition(w) <= i < |w.log| :: w.log[i] <= bound
    ensures
      var w' := Drained(w);
      w'.subscriber.Open? && w'.subscriber.current <= bound && w'.log == w.log && NextPosition(w') >= |w.log|
    decreases |w.log| - NextPosition(w)
  {
    if Enabled(w, Deliver) {
      DrainedStaysBelow(Next(w, Deliver), bound);
    }
  }

  function Overtaking(last: nat): seq<Step>
    requires last > 0
  {
    [ReadCursor(None), ReadRevision] + Commits(last) + [Publish(last)] + Publishes(last - 1) + [Trim(1)]
  }

  lemma {:induction false} AfterConnecting(start: World)
    requires start == Start(0, [], 0)
    ensures
      Run(start, [ReadCursor(None), ReadRevision]) == start.(subscriber := Open(0, 0, [Event(0, 0)], None, 0, 0))
  {
    RunExtended(start, [], ReadCursor(None));
    RunExtended(start, [ReadCursor(None)], ReadRevision);
    assert Run(start, []) == start;
    assert [] + [ReadCursor(None)] == [ReadCursor(None)];
    assert [ReadCursor(None)] + [ReadRevision] == [ReadCursor(None), ReadRevision];
  }

  lemma {:induction false} RunOne(w: World, step: Step)
    requires Enabled(w, step)
    ensures Run(w, [step]) == Next(w, step)
  {
    RunExtended(w, [], step);
    assert [] + [step] == [step];
    assert Run(w, []) == w;
  }

  lemma {:induction false} AfterPublishingLast(committed: World, last: nat)
    requires committed.log == [] && last > 0 && committed.pending == Between(1, last)
    ensures Run(committed, [Publish(last)]) == committed.(log := [last], pending := Between(1, last - 1))
  {
    RunOne(committed, Publish(last));
    BetweenGrows(last);
    assert [] + [last] == [last];
  }

  lemma {:induction false} AfterTrimming(full: World)
    requires full.trimmed <= 1 && 1 + MAX_LENGTH <= |full.log|
    ensures Run(full, [Trim(1)]) == full.(trimmed := 1)
  {
    RunOne(full, Trim(1));
  }

  lemma {:induction false} AfterLateRevision(start: World, last: nat)
    requires start == Start(0, [], 0) && last > MAX_LENGTH
    ensures
      Run(start, [ReadCursor(None), ReadRevision] + Commits(last) + [Publish(last)]) ==
      World(last, Between(1, last - 1), {}, [last], 0, Open(0, 0, [Event(0, 0)], None, 0, 0))
  {
    AfterConnecting(start);
    var connected := start.(subscriber := Open(0, 0, [Event(0, 0)], None, 0, 0));
    AfterCommits(connected, last);
    AfterPublishingLast(connected.(committed := last, pending := Between(1, last)), last);
    RunJoined(start, [ReadCursor(None), ReadRevision], Commits(last));
    RunJoined(start, [ReadCursor(None), ReadRevision] + Commits(last), [Publish(last)]);
  }

  lemma {:induction false} AfterOvertaking(start: World, last: nat)
    requires start == Start(0, [], 0) && last > MAX_LENGTH
    ensures
      Run(start, Overtaking(last)) ==
      World(last, Between(last, last - 1), {}, [last] + UpTo(last - 1), 1, Open(0, 0, [Event(0, 0)], None, 0, 0))
  {
    AfterLateRevision(start, last);
    var late := [ReadCursor(None), ReadRevision] + Commits(last) + [Publish(last)];
    var overtaken := Run(start, late);
    AfterPublishes(overtaken, last - 1, last - 1);
    AfterTrimming(Run(overtaken, Publishes(last - 1)));
    RunJoined(start, late, Publishes(last - 1));
    RunJoined(start, late + Publishes(last - 1), [Trim(1)]);
  }

  /**
   * With a thousand publishes overtaken by a later one, the stream forgets the later one first: a subscriber that
   * was open all along reads everything there is and is left behind a published revision.
   */
  lemma {:induction false} OvertakenRevisionIsTrimmed(last: nat) returns (steps: seq<Step>)
    requires last > MAX_LENGTH
    ensures
      var w := Run(Start(0, [], 0), steps);
      w.subscriber.Open? && NextPosition(w) >= |w.log| && last in w.log && w.subscriber.current < last
  {
    var start := Start(0, [], 0);
    AfterOvertaking(start, last);
    var trimmed := Run(start, Overtaking(last));
    assert trimmed.log[0] == last;
    DrainedStaysBelow(trimmed, last - 1);
    var deliveries := DrainedIsRun(trimmed);
    RunJoined(start, Overtaking(last), deliveries);
    steps := Overtaking(last) + deliveries;
  }
}
