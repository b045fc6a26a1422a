/** The server side of one connection: its cursor, its current revision, and the loop that reads the stream. */
module StreamSubscriber {
  import opened Wrappers
  import opened RevisionStream

  /** How many messages one read of the stream returns at most. */
  const READ_COUNT := 100

  function HeartbeatEnd(s: Subscriber, failed: bool): Subscriber
    requires s.Open?
  {
    if failed || s.reading.None? then s.(reading := None) else Reconciled(s, s.reading.value)
  }

  class Connection {
    var cursor: nat
    var current: nat
    var emitted: seq<Event>
    var reading: Option<Reading>
    ghost var from: nat
    ghost var seenTo: nat

    ghost function State(): (s: Subscriber)
      reads this
      ensures s.Open?
    {
      Open(cursor, current, emitted, reading, from, seenTo)
    }

    /** The baseline: the cursor was fixed before the revision was read. */
    constructor (start: nat, revision: nat, ghost published: nat)
      ensures State() == Open(start, revision, [Event(start, revision)], None, start, published)
    {
      cursor, current, emitted, reading, from, seenTo := start, revision, [Event(start, revision)], None, start, published;
    }

    /** Sends a revision on, unless the client has already been told as much. */
    method Offer(id: nat, revision: nat)
      modifies this`current, this`emitted
      ensures State() == Emit(old(State()), id, revision)
    {
      if ShouldEmit(current, revision) {
        current := revision;
        emitted := emitted + [Event(id, revision)];
      }
    }

    method OnMessage(position: nat, revision: nat)
      modifies this
      ensures State() == Delivered(old(State()), position, revision)
    {
      if position != cursor { from := position; }
      cursor := position + 1;
      Offer(position + 1, revision);
    }

    /** The end of a heartbeat: the revision it read, or a failure, which only keeps the connection alive. */
    method OnHeartbeat(failed: bool)
      modifies this
      ensures State() == HeartbeatEnd(old(State()), failed)
    {
      if reading.Some? {
        if !failed {
          Offer(cursor, reading.value.revision);
          if reading.value.seenTo > seenTo { seenTo := reading.value.seenTo; }
        }
        reading := None;
      }
    }

    /** Reads batch after batch until the stream has nothing after the cursor. */
    method ReadStream(log: seq<nat>, trimmed: nat, ghost w: World)
      requires w.log == log && w.trimmed == trimmed && w.subscriber == State() && trimmed <= |log|
      modifies this
      ensures State() == Drained(w).subscriber
      ensures cursor >= |log| || trimmed == |log|
    {
      ghost var whole := Drained(w);
      ghost var now := w;
      var position := if cursor < trimmed then trimmed else cursor;
      while position < |log|
        invariant now == w.(subscriber := State()) && Drained(now) == whole
        invariant position == NextPosition(now)
        decreases if position < |log| then |log| - position else 0
      {
        var end := if position + READ_COUNT < |log| then position + READ_COUNT else |log|;
        var k := position;
        while k < end
          invariant position <= k <= end
          invariant now == w.(subscriber := State()) && Drained(now) == whole
          invariant k == NextPosition(now)
        {
          now := Next(now, Deliver);
          OnMessage(k, log[k]);
          k := k + 1;
        }
        position := end;
      }
    }
  }
}
