/** The service around the pipeline: the stored rows, the revision loop and the retry loop. */
module ActionService {
  import NatSets
  import opened ActionPipeline

  const MAX_ATTEMPTS := 3

  /** One pass of the retry loop: what other requests do first, and what this attempt then meets. */
  datatype Pass = Pass(others: seq<Call>, env: Env)

  /** Aborted attempts are repeated, up to the last pass; every other answer ends the request. */
  function Executed(s: State, request: Request, passes: seq<Pass>): (State, Answer)
    decreases |passes|
  {
    if passes == [] then (s, Rejected(Conflict))
    else
      var (after, answer) := Attempt(After(s, passes[0].others), request, passes[0].env);
      if answer.Aborted? then Executed(after, request, passes[1..]) else (after, answer)
  }

  /** The passes that were made, up to the one that ended the request. */
  function Made(s: State, request: Request, passes: seq<Pass>): nat
    decreases |passes|
  {
    if passes == [] then 0
    else
      var (after, answer) := Attempt(After(s, passes[0].others), request, passes[0].env);
      if answer.Aborted? then 1 + Made(after, request, passes[1..]) else 1
  }

  function OthersOf(passes: seq<Pass>): seq<Call> {
    if passes == [] then [] else passes[0].others + OthersOf(passes[1..])
  }

  lemma {:induction false} AfterJoined(s: State, first: seq<Call>, second: seq<Call>)
    ensures After(s, first + second) == After(After(s, first), second)
    decreases |second|
  {
    if second == [] {
      assert first + second == first;
    } else {
      var n := |second| - 1;
      assert (first + second)[..|first| + n] == first + second[..n];
      AfterJoined(s, first, second[..n]);
    }
  }

  /** After the given other requests, the request took effect once, as the last step, if committed, and else not at all. */
  ghost predicate EffectOnce(s: State, request: Request, others: seq<Call>, env: Env, after: State, answer: Answer) {
    after == After(s, others + if answer.Committed? then [Call(request, env)] else [])
  }

  lemma {:induction false} FinalPass(s: State, request: Request, pass: Pass)
    ensures
      var (after, answer) := Attempt(After(s, pass.others), request, pass.env);
      EffectOnce(s, request, pass.others, pass.env, after, answer) && (answer.Aborted? ==> after == After(s, pass.others))
  {
    var before := After(s, pass.others);
    assert pass.others + [] == pass.others;
    AfterJoined(s, pass.others, [Call(request, pass.env)]);
    OnlyCommitsChangeState(before, request, pass.env);
  }

  lemma {:induction false} EffectAfterOthers(
      s: State, request: Request, first: seq<Call>, others: seq<Call>, env: Env, after: State, answer: Answer)
    requires EffectOnce(After(s, first), request, others, env, after, answer)
    ensures EffectOnce(s, request, first + others, env, after, answer)
  {
    var own := if answer.Committed? then [Call(request, env)] else [];
    AfterJoined(s, first, others + own);
    assert first + (others + own) == first + others + own;
  }

  /** The request ended with the given pass, and took effect once if it was committed, else not at all. */
  ghost predicate OnceIn(s: State, request: Request, passes: seq<Pass>, made: nat, after: State, answer: Answer) {
    && 1 <= made <= |passes| && !answer.Aborted?
    && EffectOnce(s, request, OthersOf(passes[..made]), passes[made - 1].env, after, answer)
  }

  /**
   * However often the service retries, the request takes effect once if it is answered as committed, as its last
   * step, and otherwise not at all: the state is then exactly what the other requests made of it.
   */
  lemma {:induction false} RequestTakesEffectOnce(s: State, request: Request, passes: seq<Pass>)
    requires passes != []
    ensures
      var (after, answer) := Executed(s, request, passes);
      OnceIn(s, request, passes, Made(s, request, passes), after, answer)
    decreases |passes|
  {
    var pass, rest := passes[0], passes[1..];
    var (after, answer) := Attempt(After(s, pass.others), request, pass.env);
    FinalPass(s, request, pass);
    if answer.Aborted? && rest != [] {
      RequestTakesEffectOnce(after, request, rest);
      OnceLater(s, request, passes, Made(after, request, rest),
                Executed(after, request, rest).0, Executed(after, request, rest).1);
    } else {
      OnceAtFirst(s, request, passes, after, if answer.Aborted? then Rejected(Conflict) else answer);
    }
  }

  /** Only an attempt that met a conflict is repeated, and only a request whose every attempt did ends as a conflict. */
  lemma {:induction false} OnlyConflictsAreRepeated(s: State, request: Request, passes: seq<Pass>)
    requires passes != []
    ensures
      var made := Made(s, request, passes);
      && 1 <= made <= |passes| && (forall k | 0 <= k < made - 1 :: passes[k].env.aborts)
      && (made == |passes| || !passes[made - 1].env.aborts)
      && (Executed(s, request, passes).1 == Rejected(Conflict) <==> passes[made - 1].env.aborts)
    decreases |passes|
  {
    var after := Attempt(After(s, passes[0].others), request, passes[0].env).0;
    if passes[0].env.aborts && |passes| > 1 {
      OnlyConflictsAreRepeated(after, request, passes[1..]);
    }
  }

  lemma {:induction false} OnceAtFirst(s: State, request: Request, passes: seq<Pass>, after: State, answer: Answer)
    requires passes != [] && !answer.Aborted?
    requires EffectOnce(s, request, passes[0].others, passes[0].env, after, answer)
    ensures OnceIn(s, request, passes, 1, after, answer)
  {
    OthersOfFirst(passes, 0);
    assert passes[0].others + [] == passes[0].others;
  }

  lemma {:induction false} OnceLater(
      s: State, request: Request, passes: seq<Pass>, made: nat, after: State, answer: Answer)
    requires passes != [] && OnceIn(After(s, passes[0].others), request, passes[1..], made, after, answer)
    ensures OnceIn(s, request, passes, made + 1, after, answer)
  {
    var rest := passes[1..];
    OthersOfFirst(passes, made);
    EffectAfterOthers(s, request, passes[0].others, OthersOf(rest[..made]), rest[made - 1].env, after, answer);
  }

  lemma {:induction false} OthersOfFirst(passes: seq<Pass>, made: nat)
    requires made < |passes|
    ensures OthersOf(passes[..made + 1]) == passes[0].others + OthersOf(passes[1..][..made])
  {
    assert passes[..made + 1][1..] == passes[1..][..made];
  }

  /** The editions done so far have one revision more, the others what they had. */
  ghost predicate Raised(before: map<Id, nat>, now: map<Id, nat>, done: seq<Id>) {
    now.Keys == before.Keys && forall e | e in now :: now[e] == before[e] + if e in done then 1 else 0
  }

  lemma {:induction false} RaisedNext(before: map<Id, nat>, now: map<Id, nat>, order: seq<Id>, i: nat)
    requires NatSets.Ascending(order) && i < |order| && order[i] in now && Raised(before, now, order[..i])
    ensures order[i] !in order[..i]
    ensures Raised(before, now[order[i] := now[order[i]] + 1], order[..i + 1])
  {
    assert order[..i + 1] == order[..i] + [order[i]];
  }

  datatype RevisionEvent = RevisionEvent(edition: Id, revision: nat)

  class Service {
    var revisions: map<Id, nat>
    var receipts: seq<Receipt>
    var commits: seq<Commit>

    constructor (start: map<Id, nat>)
      ensures Stored() == Start(start)
    {
      revisions, receipts, commits := start, [], [];
    }

    function Stored(): State
      reads this
    {
      State(revisions, receipts, commits)
    }

    /** Adds one to each listed edition, in id order, and reports the new revisions. */
    method BumpRevisions(listed: set<Id>) returns (events: seq<RevisionEvent>)
      requires listed <= revisions.Keys
      modifies this`revisions
      ensures revisions == Incremented(old(revisions), listed)
      ensures Bumped(events, listed)
    {
      var order := NatSets.Sorted(listed);
      events := [];
      for i := 0 to |order|
        invariant Raised(old(revisions), revisions, order[..i])
        invariant |events| == i
        invariant forall k | 0 <= k < i ::
          events[k].edition == order[k] && order[k] in revisions && events[k].revision == revisions[order[k]]
      {
        var e := order[i];
        assert e in order;
        RaisedNext(old(revisions), revisions, order, i);
        revisions := revisions[e := revisions[e] + 1];
        events := events + [RevisionEvent(e, revisions[e])];
      }
      assert order[..|order|] == order;
    }

    /** The transaction: all of the attempt or none of it. Only a commit has revisions to publish. */
    method Transact(request: Request, env: Env) returns (answer: Answer, events: seq<RevisionEvent>)
      modifies this
      ensures (Stored(), answer) == Attempt(old(Stored()), request, env)
      ensures !answer.Committed? ==> events == []
      ensures answer.Committed? ==> Announces(events)
    {
      if env.aborts {
        return Aborted, [];
      }
      var receipt := ByRoute(receipts, request.route, request.key);
      if receipt.Some? {
        if receipt.value.hash != request.hash {
          return Rejected(PayloadDiffers), [];
        }
        if !env.replayAllowed {
          return Rejected(NotAllowed), [];
        }
        return Replay(receipt.value, request), [];
      }
      if env.resolved.None? || env.resolved.value !in revisions {
        return Rejected(NoEdition), [];
      }
      if !env.actorExists {
        return Rejected(NoActor), [];
      }
      if !env.allowed {
        return Rejected(NotAllowed), [];
      }
      var existing := ByEdition(receipts, env.resolved.value, request.key);
      if existing.Some? {
        return Replay(existing.value, request), [];
      }
      if env.mutation.None? {
        return Rejected(HandlerRefused), [];
      }
      answer, events := Mutated(request, env);
    }

    /** What follows the handler: counters, snapshot and receipt, with everything taken back when a step fails. */
    method Mutated(request: Request, env: Env) returns (answer: Answer, events: seq<RevisionEvent>)
      requires env.resolved.Some? && env.resolved.value in revisions && env.mutation.Some?
      modifies this
      ensures (Stored(), answer) == Mutate(old(Stored()), request, env, env.resolved.value, env.mutation.value)
      ensures !answer.Committed? ==> events == []
      ensures answer.Committed? ==> Announces(events)
    {
      var m := env.mutation.value;
      if !m.inScope {
        return Rejected(OutOfScope), [];
      }
      var response := if m.response.Some? then m.response.value else env.resolved.value;
      var listed := m.affected + {response};
      var before := revisions;
      revisions := WithCreated(revisions, m.created);
      if !(listed <= revisions.Keys) {
        revisions := before;
        return Rejected(UnknownEdition), [];
      }
      events := BumpRevisions(listed);
      if env.snapshot.None? {
        revisions := before;
        return Rejected(NoSnapshot), [];
      }
      if ByEdition(receipts, response, request.key).Some? {
        revisions := before;
        return Rejected(KeyTaken), [];
      }
      var envelope := Envelope(env.snapshot.value, revisions[response]);
      receipts := receipts + [Receipt(response, request.key, request.hash, request.route, request.user, envelope)];
      commits := commits + [Commit(request.route, request.key, listed)];
      return Committed(envelope), events;
    }

    /** One event for each edition the last commit listed, in id order, with its new revision. */
    ghost predicate Announces(events: seq<RevisionEvent>)
      reads this
    {
      commits != [] && Bumped(events, commits[|commits| - 1].listed)
    }

    ghost predicate Bumped(events: seq<RevisionEvent>, listed: set<Id>)
      reads this
    {
      |events| == |NatSets.Sorted(listed)| &&
      forall i | 0 <= i < |events| ::
        events[i].edition == NatSets.Sorted(listed)[i] && events[i].edition in revisions &&
        events[i].revision == revisions[events[i].edition]
    }

    /** What other requests commit while this one waits. */
    method Interleave(calls: seq<Call>)
      modifies this
      ensures Stored() == After(old(Stored()), calls)
    {
      for i := 0 to |calls|
        invariant Stored() == After(old(Stored()), calls[..i])
      {
        assert calls[..i + 1][..i] == calls[..i];
        var answer, events := Transact(calls[i].request, calls[i].env);
      }
      assert calls[..|calls|] == calls;
    }

    /** The retry loop. */
    method Execute(request: Request, passes: seq<Pass>) returns (answer: Answer, events: seq<RevisionEvent>)
      requires |passes| == MAX_ATTEMPTS
      modifies this
      ensures (Stored(), answer) == Executed(old(Stored()), request, passes)
      ensures !answer.Committed? ==> events == []
      ensures answer.Committed? ==> Announces(events)
    {
      ghost var whole := Executed(Stored(), request, passes);
      var attempt := 0;
      while attempt < MAX_ATTEMPTS
        invariant 0 <= attempt <= MAX_ATTEMPTS
        invariant whole == Executed(Stored(), request, passes[attempt..])
      {
        Interleave(passes[attempt].others);
        answer, events := Transact(request, passes[attempt].env);
        assert passes[attempt..][1..] == passes[attempt + 1..];
        if !answer.Aborted? {
          return;
        }
        attempt := attempt + 1;
      }
      return Rejected(Conflict), [];
    }
  }
}
