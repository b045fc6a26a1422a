/** One request to change an edition: receipts, the transaction, and the revision counters. */
module ActionPipeline {
  import opened Wrappers

  type Id = nat

  /** What the client sends; `hash` stands for the digest of the canonical body. */
  datatype Request = Request(route: Id, key: Id, hash: Id, user: Id)

  /** What a handler reports: `response` is the edition whose snapshot answers, when it is not the resolved one. */
  datatype Mutation = Mutation(response: Option<Id>, affected: set<Id>, created: set<Id>, inScope: bool)

  /** What the rest of the system decides during one attempt. */
  datatype Env = Env(
    aborts: bool,
    replayAllowed: bool,
    resolved: Option<Id>,
    actorExists: bool,
    allowed: bool,
    mutation: Option<Mutation>,
    snapshot: Option<Id>)

  datatype Envelope = Envelope(data: Id, revision: nat)

  datatype Receipt = Receipt(edition: Id, key: Id, hash: Id, route: Id, actor: Id, envelope: Envelope)

  /** A committed mutation: who asked for it and which editions it listed. */
  datatype Commit = Commit(route: Id, key: Id, listed: set<Id>)

  datatype State = State(revisions: map<Id, nat>, receipts: seq<Receipt>, commits: seq<Commit>)

  datatype Reason =
    | PayloadDiffers | NotAllowed | OtherUser | NoEdition | NoActor
    | HandlerRefused | OutOfScope | UnknownEdition | NoSnapshot | KeyTaken | Conflict

  datatype Answer =
    | Committed(envelope: Envelope)
    | Replayed(envelope: Envelope)
    | Rejected(reason: Reason)
    | Aborted

  // ----- Receipts -----

  /** The oldest receipt stored for this route and key. */
  function ByRoute(receipts: seq<Receipt>, route: Id, key: Id): (found: Option<Receipt>)
    ensures found.Some? ==> found.value in receipts && found.value.route == route && found.value.key == key
    ensures found.None? ==> forall r | r in receipts :: !(r.route == route && r.key == key)
  {
    if receipts == [] then None
    else if receipts[0].route == route && receipts[0].key == key then Some(receipts[0])
    else ByRoute(receipts[1..], route, key)
  }

  /** The receipt of this edition and key. */
  function ByEdition(receipts: seq<Receipt>, edition: Id, key: Id): (found: Option<Receipt>)
    ensures found.Some? ==> found.value in receipts && found.value.edition == edition && found.value.key == key
    ensures found.None? ==> forall r | r in receipts :: !(r.edition == edition && r.key == key)
  {
    if receipts == [] then None
    else if receipts[0].edition == edition && receipts[0].key == key then Some(receipts[0])
    else ByEdition(receipts[1..], edition, key)
  }

  // ----- One attempt: an atomic transaction -----

  function Incremented(revisions: map<Id, nat>, listed: set<Id>): map<Id, nat> {
    map e | e in revisions :: if e in listed then revisions[e] + 1 else revisions[e]
  }

  /** New editions start at revision 0. */
  function WithCreated(revisions: map<Id, nat>, created: set<Id>): map<Id, nat> {
    map e | e in revisions.Keys + created :: if e in revisions then revisions[e] else 0
  }

  function Replay(receipt: Receipt, request: Request): Answer {
    if receipt.hash != request.hash then Rejected(PayloadDiffers)
    else if receipt.actor != request.user then Rejected(OtherUser)
    else Replayed(receipt.envelope)
  }

  function Mutate(s: State, request: Request, env: Env, edition: Id, m: Mutation): (State, Answer) {
    var response := if m.response.Some? then m.response.value else edition;
    var listed := m.affected + {response};
    var editions := WithCreated(s.revisions, m.created);
    if !m.inScope then (s, Rejected(OutOfScope))
    else if !(listed <= editions.Keys) then (s, Rejected(UnknownEdition))
    else if env.snapshot.None? then (s, Rejected(NoSnapshot))
    else if ByEdition(s.receipts, response, request.key).Some? then (s, Rejected(KeyTaken))
    else
      var revisions := Incremented(editions, listed);
      var envelope := Envelope(env.snapshot.value, revisions[response]);
      var receipt := Receipt(response, request.key, request.hash, request.route, request.user, envelope);
      (State(revisions, s.receipts + [receipt], s.commits + [Commit(request.route, request.key, listed)]),
       Committed(envelope))
  }

  function Perform(s: State, request: Request, env: Env, edition: Id): (State, Answer) {
    var existing := ByEdition(s.receipts, edition, request.key);
    if !env.actorExists then (s, Rejected(NoActor))
    else if !env.allowed then (s, Rejected(NotAllowed))
    else if existing.Some? then (s, Replay(existing.value, request))
    else if env.mutation.None? then (s, Rejected(HandlerRefused))
    else Mutate(s, request, env, edition, env.mutation.value)
  }

  /** One attempt; a serialization conflict at any point undoes all of it. */
  function Attempt(s: State, request: Request, env: Env): (State, Answer) {
    var receipt := ByRoute(s.receipts, request.route, request.key);
    if env.aborts then (s, Aborted)
    else if receipt.Some? then
      if receipt.value.hash != request.hash then (s, Rejected(PayloadDiffers))
      else if !env.replayAllowed then (s, Rejected(NotAllowed))
      else (s, Replay(receipt.value, request))
    else if env.resolved.None? || env.resolved.value !in s.revisions then (s, Rejected(NoEdition))
    else Perform(s, request, env, env.resolved.value)
  }

  /** A commit comes from an existing, authorised actor and a handler that succeeded in scope, and is never a repeat. */
  lemma {:induction false} CommitNeeds(s: State, request: Request, env: Env)
    requires Attempt(s, request, env).1.Committed?
    ensures !env.aborts && env.actorExists && env.allowed && env.snapshot.Some? && env.mutation.Some?
    ensures env.resolved.Some? && env.resolved.value in s.revisions && env.mutation.value.inScope
    ensures forall r | r in s.receipts :: !(r.route == request.route && r.key == request.key)
    ensures
      var m, after := env.mutation.value, Attempt(s, request, env).0;
      var response := if m.response.Some? then m.response.value else env.resolved.value;
      && response in after.revisions
      && Attempt(s, request, env).1.envelope == Envelope(env.snapshot.value, after.revisions[response])
      && after.receipts == s.receipts +
           [Receipt(response, request.key, request.hash, request.route, request.user, Attempt(s, request, env).1.envelope)]
      && after.commits == s.commits + [Commit(request.route, request.key, m.affected + {response})]
      && after.revisions.Keys == s.revisions.Keys + m.created
      && forall e | e in after.revisions ::
           after.revisions[e] ==
           (if e in s.revisions then s.revisions[e] else 0) + (if e in m.affected || e == response then 1 else 0)
  {
  }

  /** A stored answer goes only to the user who got it, for the same payload, after the repeat was authorised too. */
  lemma {:induction false} ReplayNeeds(s: State, request: Request, env: Env)
    requires Attempt(s, request, env).1.Replayed?
    ensures !env.aborts && (env.replayAllowed || (env.actorExists && env.allowed))
    ensures exists r ::
      && r in s.receipts && r.key == request.key && r.hash == request.hash && r.actor == request.user
      && r.envelope == Attempt(s, request, env).1.envelope
      && (r.route == request.route || Some(r.edition) == env.resolved)
  {
  }

  /** The same route and key with another payload is refused as such, whoever sends it. */
  lemma {:induction false} OtherPayloadIsRefused(s: State, request: Request, env: Env)
    requires !env.aborts && ByRoute(s.receipts, request.route, request.key).Some?
    requires ByRoute(s.receipts, request.route, request.key).value.hash != request.hash
    ensures Attempt(s, request, env) == (s, Rejected(PayloadDiffers))
  {
  }

  /** A key used before for the same edition, by whatever route, is answered from its receipt or refused as different. */
  lemma {:induction false} EditionKeyIsAnswered(s: State, request: Request, env: Env, receipt: Receipt)
    requires !env.aborts && env.actorExists && env.allowed && env.resolved.Some? && env.resolved.value in s.revisions
    requires ByRoute(s.receipts, request.route, request.key).None?
    requires ByEdition(s.receipts, env.resolved.value, request.key) == Some(receipt)
    ensures Attempt(s, request, env).0 == s
    ensures
      Attempt(s, request, env).1 ==
      if request.hash != receipt.hash then Rejected(PayloadDiffers)
      else if request.user != receipt.actor then Rejected(OtherUser)
      else Replayed(receipt.envelope)
  {
  }

  // ----- Runs: attempts of any requests in any order -----

  datatype Call = Call(request: Request, env: Env)

  function After(s: State, calls: seq<Call>): State {
    if calls == [] then s
    else
      var last := calls[|calls| - 1];
      Attempt(After(s, calls[..|calls| - 1]), last.request, last.env).0
  }

  function Start(revisions: map<Id, nat>): State {
    State(revisions, [], [])
  }

  function StartValue(start: map<Id, nat>, e: Id): nat {
    if e in start then start[e] else 0
  }

  function TimesListed(commits: seq<Commit>, e: Id): nat {
    if commits == [] then 0
    else TimesListed(commits[..|commits| - 1], e) + if e in commits[|commits| - 1].listed then 1 else 0
  }

  // ----- The invariant -----

  /** Each receipt records the commit that wrote it, and its envelope the revision that commit produced. */
  ghost predicate ReceiptFits(start: map<Id, nat>, s: State, i: nat)
    requires i < |s.receipts| && i < |s.commits|
  {
    var receipt, commit := s.receipts[i], s.commits[i];
    receipt.route == commit.route && receipt.key == commit.key && receipt.edition in commit.listed &&
    receipt.envelope.revision == StartValue(start, receipt.edition) + TimesListed(s.commits[..i + 1], receipt.edition)
  }

  ghost predicate OneCommitPerKey(commits: seq<Commit>) {
    forall i, j | 0 <= i < j < |commits| :: !(commits[i].route == commits[j].route && commits[i].key == commits[j].key)
  }

  ghost predicate OneReceiptPerEdition(receipts: seq<Receipt>) {
    forall i, j | 0 <= i < j < |receipts| ::
      !(receipts[i].edition == receipts[j].edition && receipts[i].key == receipts[j].key)
  }

  ghost predicate RevisionsCount(start: map<Id, nat>, s: State) {
    (forall e | e in s.revisions :: s.revisions[e] == StartValue(start, e) + TimesListed(s.commits, e)) &&
    (forall e | e !in s.revisions :: e !in start && TimesListed(s.commits, e) == 0)
  }

  ghost predicate Sound(start: map<Id, nat>, s: State) {
    |s.receipts| == |s.commits| && OneCommitPerKey(s.commits) && OneReceiptPerEdition(s.receipts) &&
    RevisionsCount(start, s) && forall i: nat | i < |s.receipts| :: ReceiptFits(start, s, i)
  }

  lemma {:induction false} RouteUnused(start: map<Id, nat>, s: State, request: Request)
    requires Sound(start, s) && ByRoute(s.receipts, request.route, request.key).None?
    ensures forall i | 0 <= i < |s.commits| ::
      !(s.commits[i].route == request.route && s.commits[i].key == request.key)
  {
    forall i | 0 <= i < |s.commits|
      ensures !(s.commits[i].route == request.route && s.commits[i].key == request.key)
    {
      assert ReceiptFits(start, s, i);
      assert s.receipts[i] in s.receipts;
    }
  }

  lemma {:induction false} AppendKeepsSound(start: map<Id, nat>, s: State, s': State, receipt: Receipt, commit: Commit)
    requires Sound(start, s) && RevisionsCount(start, s')
    requires s'.receipts == s.receipts + [receipt] && s'.commits == s.commits + [commit]
    requires receipt.route == commit.route && receipt.key == commit.key && receipt.edition in commit.listed
    requires receipt.edition in s'.revisions && receipt.envelope.revision == s'.revisions[receipt.edition]
    requires forall i | 0 <= i < |s.commits| :: !(s.commits[i].route == commit.route && s.commits[i].key == commit.key)
    requires forall r | r in s.receipts :: !(r.edition == receipt.edition && r.key == receipt.key)
    ensures Sound(start, s')
  {
    var n := |s.commits|;
    assert s'.commits[..n + 1] == s'.commits;
    assert ReceiptFits(start, s', n);
    forall i: nat | i < n ensures ReceiptFits(start, s', i) {
      assert ReceiptFits(start, s, i);
      assert s'.commits[..i + 1] == s.commits[..i + 1];
    }
    forall i | 0 <= i < n
      ensures !(s.receipts[i].edition == receipt.edition && s.receipts[i].key == receipt.key)
    {
      assert s.receipts[i] in s.receipts;
    }
  }

  lemma {:induction false} CommitKeepsSound(
      start: map<Id, nat>, s: State, request: Request, env: Env, edition: Id, m: Mutation)
    requires Sound(start, s) && ByRoute(s.receipts, request.route, request.key).None?
    ensures Sound(start, Mutate(s, request, env, edition, m).0)
  {
    var s' := Mutate(s, request, env, edition, m).0;
    if s' != s {
      var n := |s.commits|;
      RouteUnused(start, s, request);
      AppendKeepsSound(start, s, s', s'.receipts[n], s'.commits[n]);
    }
  }

  lemma {:induction false} AttemptKeepsSound(start: map<Id, nat>, s: State, request: Request, env: Env)
    requires Sound(start, s)
    ensures Sound(start, Attempt(s, request, env).0)
  {
    if Attempt(s, request, env).0 != s {
      CommitKeepsSound(start, s, request, env, env.resolved.value, env.mutation.value);
    }
  }

  /** In every run: one commit per route and key, one receipt per edition and key, and revisions that count commits. */
  lemma {:induction false} EveryRunSound(start: map<Id, nat>, calls: seq<Call>)
    ensures Sound(start, After(Start(start), calls))
    decreases |calls|
  {
    if calls != [] {
      var n := |calls| - 1;
      EveryRunSound(start, calls[..n]);
      AttemptKeepsSound(start, After(Start(start), calls[..n]), calls[n].request, calls[n].env);
    }
  }

  // ----- Repeats -----

  lemma {:induction false} ByRouteStable(receipts: seq<Receipt>, more: seq<Receipt>, route: Id, key: Id)
    requires ByRoute(receipts, route, key).Some?
    ensures ByRoute(receipts + more, route, key) == ByRoute(receipts, route, key)
    decreases |receipts|
  {
    assert (receipts + more)[0] == receipts[0];
    if !(receipts[0].route == route && receipts[0].key == key) {
      assert (receipts + more)[1..] == receipts[1..] + more;
      ByRouteStable(receipts[1..], more, route, key);
    }
  }

  /** Receipts are only ever added. */
  lemma {:induction false} ReceiptStays(s: State, calls: seq<Call>, route: Id, key: Id)
    requires ByRoute(s.receipts, route, key).Some?
    ensures ByRoute(After(s, calls).receipts, route, key) == ByRoute(s.receipts, route, key)
    decreases |calls|
  {
    if calls != [] {
      var n := |calls| - 1;
      ReceiptStays(s, calls[..n], route, key);
      var before, after := After(s, calls[..n]), After(s, calls);
      if after != before {
        assert after.receipts == before.receipts + [after.receipts[|before.receipts|]];
        ByRouteStable(before.receipts, [after.receipts[|before.receipts|]], route, key);
      }
    }
  }

  /**
   * Once a request has committed, every later request with its route and key, whatever happened in between,
   * changes nothing, and is answered with the same envelope or refused.
   */
  lemma {:induction false} RepeatIsHarmless(s: State, first: Call, between: seq<Call>, again: Call)
    requires Attempt(s, first.request, first.env).1.Committed?
    requires again.request.route == first.request.route && again.request.key == first.request.key
    ensures
      var (committed, answer) := Attempt(s, first.request, first.env);
      var now := After(committed, between);
      var (later, reply) := Attempt(now, again.request, again.env);
      later == now && !reply.Committed? && (reply.Replayed? ==> reply.envelope == answer.envelope) &&
      (again.request == first.request && again.env.replayAllowed && !again.env.aborts ==> reply == Replayed(answer.envelope))
  {
    var committed := Attempt(s, first.request, first.env).0;
    ReceiptStays(committed, between, first.request.route, first.request.key);
  }

  /** An attempt that does not commit leaves no trace, whatever its reason. */
  lemma {:induction false} OnlyCommitsChangeState(s: State, request: Request, env: Env)
    ensures Attempt(s, request, env).1.Committed? <==> Attempt(s, request, env).0 != s
  {
    assert Attempt(s, request, env).1.Committed? ==>
           |Attempt(s, request, env).0.commits| == |s.commits| + 1;
  }

  // ----- Revisions to publish -----

  /** The revision commit i gives an edition it lists. */
  function RevisionOf(start: map<Id, nat>, commits: seq<Commit>, i: nat, e: Id): nat
    requires i < |commits|
  {
    StartValue(start, e) + TimesListed(commits[..i + 1], e)
  }

  lemma {:induction false} ListedGrows(commits: seq<Commit>, n: nat, m: nat, e: Id)
    requires n <= m <= |commits|
    ensures TimesListed(commits[..n], e) <= TimesListed(commits[..m], e)
    decreases m - n
  {
    if n < m {
      ListedGrows(commits, n, m - 1, e);
      assert commits[..m][..m - 1] == commits[..m - 1];
    }
  }

  /** No revision of an edition belongs to two commits, and later commits have higher ones. */
  lemma {:induction false} CommitsHaveOwnRevisions(start: map<Id, nat>, commits: seq<Commit>, i: nat, j: nat, e: Id)
    requires i < j < |commits| && e in commits[j].listed
    ensures RevisionOf(start, commits, i, e) < RevisionOf(start, commits, j, e)
  {
    ListedGrows(commits, i + 1, j, e);
    assert commits[..j + 1][..j] == commits[..j];
  }

  /** The revision of an edition is the one its last listing commit gave it. */
  lemma {:induction false} LastListingGivesRevision(start: map<Id, nat>, calls: seq<Call>, i: nat, e: Id)
    requires
      var commits := After(Start(start), calls).commits;
      i < |commits| && e in commits[i].listed && forall k | i < k < |commits| :: e !in commits[k].listed
    ensures
      var s := After(Start(start), calls);
      e in s.revisions && s.revisions[e] == RevisionOf(start, s.commits, i, e)
  {
    EveryRunSound(start, calls);
    var s := After(Start(start), calls);
    UnlistedStays(s.commits, i + 1, |s.commits|, e);
    ListedGrows(s.commits, 0, i, e);
    assert s.commits[..i + 1][..i] == s.commits[..i] && s.commits[..|s.commits|] == s.commits;
  }

  lemma {:induction false} UnlistedStays(commits: seq<Commit>, n: nat, m: nat, e: Id)
    requires n <= m <= |commits| && forall k | n <= k < m :: e !in commits[k].listed
    ensures TimesListed(commits[..n], e) == TimesListed(commits[..m], e)
    decreases m - n
  {
    if n < m {
      UnlistedStays(commits, n, m - 1, e);
      assert commits[..m][..m - 1] == commits[..m - 1];
    }
  }
}
