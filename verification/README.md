# Verification of the competition core

A Dafny model of the parts of this service that decide results: live scoring and the score sheet, group tables
and rankings, qualification, the knockout bracket and its recomputation, the idempotent action pipeline with
its canonical request text, the revision stream, and the quarantined older ranking. Pure code is modelled as
functions. Code that updates rows or variables step by step is modelled as classes and methods with loops, each
proved equal to a specification function; what the service promises is then proved about those functions, for
every input and every run. `dafny verify dfyconfig.toml` checks everything. Automatic induction is switched off on
every lemma, so an inductive proof is exactly the body that is written down.

## How the files fit together

| area | files |
|---|---|
| Match | `Regulation`, `Statuses`, `SetScores`, `LiveMatch`, `MatchHistory`, `MatchResults`, `ScoreSheet`, `MatchTheorems`, `MatchScores`, `OperatorLock`, `MatchDesk` |
| Group phase | `Standings`, `Ranking`, `GroupTable`, `HeadToHead`, `Qualification`, `Classification` |
| Knockout | `Seeding`, `Knockout`, `KnockoutPhase`, `BracketInvariant`, `BracketResults`, `BracketRuns`, `BracketRecompute`, `BracketProgress`, `BracketLength`, `BracketPlayout`, `BracketRepair`, `BracketMatches`, `BracketPlaces`, `BracketLimits`, `BracketStore` |
| Whole tournament | `Tournament`, `TournamentFlow`, `TournamentTables`, `TournamentRuns`, `TournamentStore` |
| Actions | `ActionPipeline`, `ActionService`, `JsonText`, `CanonicalJson`, `JsonRoundTrip`, `JsonEquality` |
| Revision stream | `RevisionStream`, `StreamSubscriber` |
| Older ranking | `LegacyStandings`, `LegacyTheorems`, `LegacyStrategies`, `LegacyRanks`, `LegacyLevels` |
| Shared | `Wrappers`, `Entries`, `NatSets`, `Sorting` |

Assumptions: a serializable transaction is one atomic step; the digest of the request is injective, so equal
hashes stand for equal canonical texts; ids and names are numbers, compared by their order. A regulation is
fixed during a run, and has at least one set to win, one point to win a set and one point of advantage. Scores,
points and fair-play points in tables are reals; live scores are integers. A match goes live only through
`start`. What the model does not decide itself (resolving an edition, authorization, what a handler reports, a
serialization conflict, what other requests do in between) is a parameter of the step, so the theorems hold for
every choice of it.

## Where the code and its promises part

- A score sheet under a one-point advantage accepts set scores no rallies reach (`AcceptedButUnplayable`);
  `SheetAcceptsExactlyPlayableSets` and `SheetAgreesWithLivePlay` carry the exact exception.
- `undoEvent` does not look at the status; after `finish` it can leave a winner the score does not justify
  (`UndoAfterTheWhistleLeavesTheWinner`); `UndoAfterTheWhistleExactly` says when.
- A walkover can be declared again for the other side, and `update` does not look downstream: the next round and the
  third-place match keep who went on before, and so does a first round whose groups change
  (`RedeclaredWalkoverLeavesFinal`, `RedeclareBreaksForGood`, `ChangedGroupsLeaveFirstRound`). Nothing breaks if and
  only if nothing was built on the result (`RedeclareKeepsConsistentExactly`).
- A published first round that resolves while some of its matches are scheduled and others already are not is filled
  in part, loses those labels, and is seeded the next time. That breaks idempotence, the pairing, and can put an entry
  into two matches (`PostponedLabelBreaksIdempotence`, `PostponedLabelRepeatsAnEntry`). It is the only way
  recomputing twice can differ from once (`TwiceIsOnceExactly`) and one recomputation can lose consistency
  (`ProgressKeepsConsistentExactly`).
- A knockout need not end. `update` cancels or closes a match that still waits for its participants, and then its round
  is never completed (`LostMatchBlocksForGood`, `CancelledFinalEndsNothing`); one that is only postponed can come back
  (`ReopensExactly`). A row scheduled in a slot that the pairing leaves as a bye holds its round up too
  (`NextRoundDefinedExactly`), and so does a match that `update` takes from LIVE to FINISHED, which stores no winner,
  until its result is corrected (`UnwonMatchWaitsForCorrection`). With results alone and nothing published every
  knockout does end (`ResultsLeadToChampion`).
- `points * 1000 + balance` stops meaning "points, then balance" at a total mutual margin of 500 times the least gap
  in points the regulation allows: 500 goals under three points for a win and one for a draw, but 250 under the half
  points of chess (`LexicographicBelowExactly`, `LimitsOfThePresets`).
- `localeCompare` may tie two different keys; the canonical text is then not canonical, and only then
  (`CanonicalExactlyUnderTotalOrders`).
- The stream alone does not bring every client up to date: it misses revisions if it resumes from an id the stream
  has not reached, or if one is trimmed that a thousand older ones overtook (`ResumedIsUpToDateExactly`,
  `TrimKeepsUpToDateExactly`, `OvertakenRevisionIsTrimmed`), until a heartbeat (`HeartbeatCatchesUp`,
  `HeartbeatRestoresUpToDate`).
- The older ranking gives an entry the rank of the one before it when the two are level, as its comment says. With
  head to head on the list, and only then, entries that are not level can share a rank that way
  (`RanksAreSoundExactly`).

A run of the bracket is safe when no walkover is declared again on a result that was built on, no recomputation fills
a part of a published first round against the seeding, and the qualifiers do not change under a half-filled first
round that the new seeding does not fit. Each condition can be read off the stored rows before the step, and each is
exact for the step it guards (`RedeclareKeepsConsistentExactly`, `ProgressKeepsConsistentExactly`,
`SourceKeepsConsistentExactly`).

## Model

| member | source | states |
|---|---|---|
| SetScores.SheetAcceptsExactlyPlayableSets | src/edition-actions/handlers/match-action.handler.ts:1334-1356 | A set score is accepted with winner w exactly when some sequence of rallies from 0-0 ends there, won by w and not before; the one exception, scores past the target under a one-point advantage, is part of the equivalence |
| SetScores.AcceptedButUnplayable | src/edition-actions/handlers/match-action.handler.ts:1340-1355 | With minAdvantage 1 the sheet accepts 26-25 in a set to 25, which no rallies reach |
| SetScores.PlayableIsAccepted | src/edition-actions/handlers/match-action.handler.ts:1334-1356 | Whatever live play can reach is accepted, for every minAdvantage from 1 on |
| SetScores.SetIsWonExactly | src/edition-actions/action-regulation.ts:235-252 | A side has won the set if and only if it has reached the target and leads by the advantage; only from the last possible set on the shorter target applies |
| ScoreSheet.SheetAgreesWithLivePlay | src/edition-actions/handlers/match-action.handler.ts:1237-1258 | Within the input limits, the sheet is accepted (no set past its target under a one-point advantage) exactly when some live run of one-point events, undos included, ends decided with the same period results; score, results and current period then agree for every such run |
| ScoreSheet.LiveResultIsAccepted | src/edition-actions/handlers/match-action.handler.ts:1297-1311 | Every decided live run's period results are an acceptable sheet that stores the same score, results and current period |
| ScoreSheet.AcceptedSheetIsPlayed | src/edition-actions/handlers/match-action.handler.ts:1237-1258 | For every accepted sheet there is a live run, constructed, that produces it |
| ScoreSheet.PlaySet | src/edition-actions/handlers/match-action.handler.ts:720-740 | Replaying the rallies of one set through the scoring event closes the set exactly at its score and never earlier |
| MatchHistory.ScoreIsReplayOfSurvivingHistory | src/edition-actions/handlers/match-action.handler.ts:765-823 | After every run of events, clock updates and undos the score state is the replay of the operations that were not undone |
| MatchHistory.UndoReturnsToBeforeTheEvent | src/edition-actions/handlers/match-action.handler.ts:900-967 | An accepted undo restores scores, partials, current period and period results to exactly what they were before the undone event was accepted, wherever in the run that was and even if periods advanced since |
| MatchHistory.EveryRunExplained | src/edition-actions/handlers/match-action.handler.ts:765-823 | Every run has an explanation: the surviving history replays to the state, is linked to the active events, and sequence numbers are never reused |
| MatchHistory.EveryRunConsistent | src/edition-actions/handlers/match-action.handler.ts:464-599 | Every reachable score state is consistent for its mode (closed sets or closed periods) |
| MatchHistory.LatestActiveIsLast | src/edition-actions/handlers/match-action.handler.ts:917-929 | The event undo picks by highest sequence number is the last one of the list that is still active |
| MatchTheorems.SetsModeInvariant | src/edition-actions/handlers/match-action.handler.ts:707-747 | Sets mode: scores count stored sets by winner, results cover exactly the closed sets, the open set is undecided, currentPeriod is sets played plus one (or sets played once decided) and at most 2*setsToWin-1, and at most one side has setsToWin |
| MatchTheorems.PeriodsModeConservesPoints | src/edition-actions/handlers/match-action.handler.ts:741-746 | Periods mode: each score is the open partial plus the stored results of earlier periods, also after undoing past a period boundary |
| MatchScores.ScoreCountsOwnEvents | src/edition-actions/handlers/match-action.handler.ts:600-823 | Outside sets mode, after every run with undos and clock updates, each side's score is the sum of the points of its own events that were not undone, counted from the last declared result |
| MatchScores.ScoringEventCredits | src/edition-actions/handlers/match-action.handler.ts:741-746 | Outside sets mode an accepted event raises score and partial of the side it names by the points of its rule and changes nothing else |
| MatchScores.ScoringEventMovesSet | src/edition-actions/handlers/match-action.handler.ts:706-740 | In sets mode it moves the open set by those points: the set goes on, or it is stored, counted for its winner, and the next one starts at 0-0 unless the match is over |
| MatchScores.DeclarationSetsTheScore | src/edition-actions/handlers/match-action.handler.ts:2020-2034 | A declared result gives its side the win and the other nothing, or both the draw where draws are allowed, and moves no partial |
| MatchScores.AcceptedEventFits | src/edition-actions/handlers/match-action.handler.ts:601-790 | What an accepted event has fulfilled (live match, new id, running clock, sides, author), and that everything the client echoed is what is then stored |
| MatchScores.ClockUpdateFits | src/edition-actions/handlers/match-action.handler.ts:464-599 | A clock update changes no score; it keeps the period, or stores its partials and starts the next one the regulation has at nothing, and the echoes agree with what is stored |
| MatchScores.NextPeriodAccepted | src/edition-actions/handlers/match-action.handler.ts:540-570 | and outside sets mode a live match goes on to any period the regulation has, overtime included |
| MatchScores.WhistleFits | src/edition-actions/handlers/match-action.handler.ts:969-1075 | The whistle keeps the score, gives it to its leader, and comes early only with a reason |
| MatchScores.SheetAddsUp | src/edition-actions/handlers/match-action.handler.ts:1260-1290 | Outside sets mode the stored lines of a sheet add up to the stored score on both sides |
| MatchScores.SheetFits | src/edition-actions/handlers/match-action.handler.ts:1187-1260 | A sheet is taken for a match with both sides known that has not started, or is live without an event left, within the input limits |
| MatchScores.PlainSheetAccepted | src/edition-actions/handlers/match-action.handler.ts:1260-1290 | and outside sets mode any score with a leader is |
| MatchScores.CorrectionFits | src/edition-actions/handlers/match-action.handler.ts:1077-1177 | A correction is refused exactly for a match without a recorded result, a negative score, or a level one that neither a permitted draw nor the stored tiebreak explains |
| MatchScores.TiebreakCounts | src/edition-actions/handlers/match-action.handler.ts:1026-1043 | A tiebreak counts if and only if it names an entrant and the one with the higher score, of two that are not negative, or a level one is administrative |
| MatchScores.StartFits | src/edition-actions/handlers/match-action.handler.ts:370-462 | A match starts, its clock running, exactly if both sides are known and it is scheduled or postponed |
| Statuses.TransitionsExactly | src/edition-actions/handlers/match-action.handler.ts:1902-1921 | Finished, cancelled and walkover are final; only a live match is finished, and only a scheduled one goes live |
| MatchTheorems.FinishStoresWholeScore | src/edition-actions/handlers/match-action.handler.ts:1051-1060 | After finish in periods mode the stored partials add up to the final score on both sides |
| MatchTheorems.UndoAfterTheWhistleLeavesTheWinner | src/edition-actions/handlers/match-action.handler.ts:900-965 | undoEvent does not look at the status: undone after finish, a match can keep a winner its level score does not justify |
| MatchTheorems.UndoAfterTheWhistleExactly | src/edition-actions/handlers/match-action.handler.ts:900-965 | For every finished match: the winner stays justified if and only if the leader stays the same, or the restored score is level where a level score needs a winner or was final, or a level final score was decided for the side that then leads |
| MatchTheorems.UndoAfterTheWhistleIsUndoBefore | src/edition-actions/handlers/match-action.handler.ts:936-963 | Scores, partials and results go back to what the same undo before the whistle would have left |
| MatchTheorems.PartialsAfterUndoneWhistle | src/edition-actions/handlers/match-action.handler.ts:1051-1060 | so in periods mode the stored partials still add up to the score of a side if and only if its restored partial is zero |
| MatchResults.Finish | src/edition-actions/handlers/match-action.handler.ts:969-1075 | A finished match has a winner who is one of its entrants, or none only for a draw the regulation permits outside the knockout |
| MatchResults.RecordResult | src/edition-actions/handlers/match-action.handler.ts:1187-1332 | A recorded match stores the lines of the sheet as its periods and, outside sets mode, exactly the two scores that were sent; the side with the higher one has won, and nobody only for a permitted draw |
| MatchResults.CorrectResult | src/edition-actions/handlers/match-action.handler.ts:1077-1177 | A corrected match stores exactly the two scores that were sent, won by the side with the higher one, and keeps partials and events |
| MatchResults.Judge | src/edition-actions/handlers/match-action.handler.ts:1026-1043 | The winner judged from score and tiebreak agrees with the score, and a level score has one only through an accepted tiebreak |
| MatchResults.TiebreakWinner | src/edition-actions/handlers/match-action.handler.ts:1026-1043 | An accepted tiebreak names an entrant, the one with the higher tiebreak score if they differ; level ones only administratively |
| MatchDesk.Desk.DerivePoints | src/edition-actions/handlers/match-action.handler.ts:715-747 | The assignments after a scoring event compute exactly the specified next state and closed set |
| MatchDesk.Desk.RegisterEvent | src/edition-actions/handlers/match-action.handler.ts:601-823 | Accepted exactly when the sender holds a fresh lock and the request fits the rules, the echoes and the roster; the row update is then the specified step, and otherwise the row stays |
| MatchDesk.Desk.UpdateClock | src/edition-actions/handlers/match-action.handler.ts:464-599 | The same of a clock update, the echoed list of period results included |
| MatchDesk.Desk.UndoEvent | src/edition-actions/handlers/match-action.handler.ts:900-967 | The same of an undo |
| MatchDesk.Desk.FinishMatch | src/edition-actions/handlers/match-action.handler.ts:969-1075 | The same of the whistle |
| MatchDesk.Desk.StartMatch | src/edition-actions/handlers/match-action.handler.ts:370-462 | Starting needs both entrants and a lock that is free, stale or one's own, and takes the lock |
| MatchDesk.Desk.ClaimOperator | src/edition-actions/handlers/match-action.handler.ts:827-870 | A claim takes the lock exactly when it is forced or the lock is free, stale or one's own |
| MatchDesk.Desk.ReleaseOperator | src/edition-actions/handlers/match-action.handler.ts:872-898 | Only the holder of a fresh lock releases it |
| OperatorLock.ClaimRefusedExactly | src/edition-actions/handlers/match-action.handler.ts:844-869 | A claim without force is refused if and only if somebody else may operate at that moment |
| OperatorLock.ClaimTakesOver | src/edition-actions/handlers/match-action.handler.ts:827-870 | Force always takes the lock, and whoever takes it may act from that moment |
| OperatorLock.ReleaseFrees | src/edition-actions/handlers/match-action.handler.ts:872-898 | A lock given up is free for all at once; a release by anybody else does nothing |
| OperatorLock.ClaimerAloneOperates | src/edition-actions/handlers/match-action.handler.ts:1925-1943 | For two minutes from a claim, whatever others try without force and in whatever order, the claimer may operate and nobody else, unless the claimer releases the lock or a sheet clears it |
| OperatorLock.LockRunsOut | src/edition-actions/handlers/match-action.handler.ts:1925-1943 | Acting does not renew a lock: without a new claim anyone may take it after two minutes |
| MatchDesk.Desk.ReadSets | src/edition-actions/handlers/match-action.handler.ts:1237-1258 | The loop over the sheet returns the sets score the specification gives, and refuses exactly when it does |
| MatchDesk.Desk.RecordSheet | src/edition-actions/handlers/match-action.handler.ts:1187-1332 | The row update is the specified result of the sheet, and an accepted sheet clears the lock |
| MatchDesk.Desk.Correct | src/edition-actions/handlers/match-action.handler.ts:1077-1177 | The row update is the specified correction of the match row |
| Seeding.StandardSeeding | src/edition-actions/edition-action-recalculation.service.ts:780-802 | size/2 pairs for the least power of two that holds everyone, everyone placed exactly once, byes for exactly the top size-n seeds, and the seeds of every real pair add up to size+1 |
| Seeding.SequentialPairsUseEachOnce | src/edition-actions/edition-action-recalculation.service.ts:804-814 | Consecutive pairing places everyone exactly once; only the last of an odd number gets a bye |
| Seeding.SeedPairsLoop | src/edition-actions/edition-action-recalculation.service.ts:780-802 | The doubling and pairing loops build the specified pairs |
| Seeding.SequentialPairsLoop | src/edition-actions/edition-action-recalculation.service.ts:804-814 | The step-two loop builds the specified pairs |
| Knockout.KnockoutFromSeeding | src/edition-actions/edition-action-recalculation.service.ts:442-479 | Of rounds as lists: from n >= 2 entries, under either crossing, a champion is known after exactly ceil(log2 n) rounds and n-1 matches; the champion never loses and everyone else loses exactly once |
| Knockout.NoLaterByes | src/edition-actions/edition-action-recalculation.service.ts:780-802 | With the standard crossing no round after the first has a bye |
| Knockout.PlayOut | src/edition-actions/edition-action-recalculation.service.ts:442-479 | Of rounds as lists: pairing on from any first round ends with one entry, whatever the results are (stored rows can stop it, see BracketProgress) |
| Knockout.AdvancersDistinct | src/edition-actions/edition-action-recalculation.service.ts:442-459 | Nobody advances from two slots of a round |
| BracketRuns.BracketStaysConsistent | src/edition-actions/edition-action-recalculation.service.ts:361-511 | Over every safe run of results, walkovers, corrections, status changes of any match, new sources and recomputations, every round with participants follows one pairing, and is exactly that pairing once none of its matches is open; nobody sits in two places of it; from the second round on it is the consecutive pairing, in slot order, of the winners and byes of the completed round before |
| BracketPlaces.NextRoundHasThoseWhoWentOn | src/edition-actions/edition-action-recalculation.service.ts:442-479 | After every safe run a later round that is all filled is played, byes included, by exactly those who won a match of the round before or had a bye in it |
| BracketPlaces.NeighboursMeet | src/edition-actions/edition-action-recalculation.service.ts:804-814 | and match k of it by those who came out of the (2k-1)-th and the 2k-th slot of that round |
| BracketRuns.ThirdPlaceHoldsSemifinalLosers | src/edition-actions/edition-action-recalculation.service.ts:481-510 | After every safe run a filled third-place match holds the two losers of completed semifinals |
| BracketPlaces.ThirdPlaceIsPlayedByLosers | src/edition-actions/edition-action-recalculation.service.ts:481-510 | After every safe run the two sides of a filled third-place match are sides of two different completed matches of one round, won by somebody else, and neither goes on from that round |
| BracketPlaces.ThirdPlaceOnlyFromSemifinals | src/edition-actions/edition-action-recalculation.service.ts:481-510 | A recomputation makes or fills one only if the regulation asks for it, from a complete round of two matches that leaves two |
| BracketPlaces.ThirdPlaceFromSemifinals | src/edition-actions/edition-action-recalculation.service.ts:481-510 | and always does then, while the match is scheduled |
| BracketResults.CorrectionKeepsConsistent | src/edition-actions/handlers/match-action.handler.ts:1120-1174 | A correction that is not refused leaves a consistent bracket: everything downstream is deleted and the result stored |
| BracketRepair.CorrectionRestoresConsistency | src/edition-actions/handlers/match-action.handler.ts:1120-1174 | After a walkover was declared again under a round built on it, an accepted correction of that match makes the bracket consistent again |
| BracketMatches.FinishIsResult | src/edition-actions/handlers/match-action.handler.ts:1026-1075 | The whistle in a knockout match always gives the bracket a result with a winner, and the row the bracket stores is the finished match |
| BracketMatches.SheetIsResult | src/edition-actions/handlers/match-action.handler.ts:1270-1332 | The same of an accepted score sheet |
| BracketMatches.CorrectionIsCorrection | src/edition-actions/handlers/match-action.handler.ts:1120-1174 | A corrected result has a winner and is the bracket's correction, refused exactly when something downstream has been touched |
| BracketResults.RedeclareKeepsConsistentExactly | src/edition-actions/handlers/match-action.handler.ts:303-345 | A walkover declared again for the other side, which the status table allows, leaves a consistent bracket if and only if nothing was built on it: the former winner has no place in the next round and the third-place match does not hold this round's losers |
| BracketResults.RedeclareGuardOfFullRounds | src/edition-actions/handlers/match-action.handler.ts:1902-1921 | Where no round is half filled, that is: if and only if the next round has no participants yet |
| BracketRuns.RedeclareBreaksForGood | src/edition-actions/handlers/match-action.handler.ts:303-345 | Once the next round is all filled, the recomputation that follows does not repair it: the round keeps the former winner |
| BracketRuns.SourceKeepsConsistentExactly | src/edition-actions/edition-action-recalculation.service.ts:513-598 | Changed qualifiers leave a bracket consistent if and only if its first round is empty, all filled, or fits the new seeding |
| BracketRuns.ReachableBracketIsKnockout | src/edition-actions/edition-action-recalculation.service.ts:361-511 | Every bracket a safe run reaches, published first rounds included, is a knockout round by round: it ends within 1+ceil(log2 p) rounds of its p slots, with one loss for everyone but the champion |
| BracketLength.StoredKnockoutTakesLogRounds | src/edition-actions/edition-action-recalculation.service.ts:442-479 | Of stored rows, over every safe run from a bracket without a labelled first round whose n entries are settled once it has participants: a completed round is at most the ceil(log2 n)-th, leaves a champion if and only if it is that one, and if and only if n-1 matches are stored up to it |
| BracketLength.StoredKnockoutIsFromSeeding | src/edition-actions/edition-action-recalculation.service.ts:513-598 | The first of those rounds is the seeding of the n entries, and once there is a champion everyone else has lost exactly once |
| BracketPlayout.ResultsLeadToChampion | src/edition-actions/edition-action-recalculation.service.ts:361-511 | From n entries and nothing published, over every run of results and recomputations in any order: at most n-1 results are accepted, there is a champion if and only if n-1 are in, and until then some match has both participants and waits |
| BracketProgress.NextRoundDefinedExactly | src/edition-actions/edition-action-recalculation.service.ts:442-479 | A recomputation after a completed round gives every match of the next one its participants if and only if each row already there is filled, or is scheduled in a slot where the pairing has a match |
| BracketProgress.FirstRoundDefinedExactly | src/edition-actions/edition-action-recalculation.service.ts:513-598 | The same of the first round |
| BracketProgress.LostMatchBlocksForGood | src/edition-actions/handlers/match-action.handler.ts:1902-1921 | A match cancelled, or closed before its participants are known, keeps its round from ever being completed, and in the latter case filled, over every run, corrections and changed groups included |
| BracketProgress.ReopensExactly | src/edition-actions/handlers/match-action.handler.ts:1902-1921 | A match without participants can still be given them if and only if it is neither cancelled nor closed |
| BracketLength.LostMatchMeansNoChampion | src/edition-actions/handlers/match-action.handler.ts:1902-1921 | With such a match in one of the ceil(log2 n) rounds no safe run on settled entries reaches a champion |
| BracketLength.CancelledFinalEndsNothing | src/edition-actions/handlers/match-action.handler.ts:1902-1921 | An instance: four entries and a published final that is cancelled before the finalists are known |
| BracketProgress.UnwonMatchWaitsForCorrection | src/edition-actions/handlers/match-action.handler.ts:303-345 | A match set from LIVE to FINISHED by an update has no winner and holds its round up until its own result is corrected |
| BracketInvariant.ProgressKeepsConsistent | src/edition-actions/edition-action-recalculation.service.ts:361-511 | One recomputation keeps the bracket consistent unless it uses a part of a publication that the seeding contradicts |
| BracketInvariant.ProgressKeepsConsistentExactly | src/edition-actions/edition-action-recalculation.service.ts:513-598 | and that is exact: consistency survives if and only if no publication resolves while some unfilled first-round matches are scheduled and others are not, or the seeding agrees on what is filled |
| BracketInvariant.PublishedCoversRound | src/edition-actions/edition-action-recalculation.service.ts:615-652 | A published bracket that resolves names nobody twice and fills all of its matches |
| BracketPlaces.PublishedMatchHostsItsLabels | src/edition-actions/edition-action-recalculation.service.ts:615-652 | When a publication resolves, each scheduled match gets exactly the two entries its own labels name, at its own date and venue |
| BracketRecompute.ProgressPreservesMatches | src/edition-actions/edition-action-recalculation.service.ts:816-886 | No recomputation removes a match, changes one that left SCHEDULED, or touches date, venue, status or winner of any |
| BracketRecompute.ProgressPreservesThird | src/edition-actions/edition-action-recalculation.service.ts:481-510 | The same of the third-place match, which is not refilled once it has both participants |
| BracketProgress.StartedMatchIsKept | src/edition-actions/handlers/match-action.handler.ts:1120-1128 | No step of a run deletes a bracket match that has left SCHEDULED or changes who plays it; a correction that would is refused |
| BracketProgress.StartedThirdIsKept | src/edition-actions/handlers/match-action.handler.ts:1120-1128 | Nor the third-place match |
| BracketRecompute.TwiceIsOnceExactly | src/edition-actions/edition-action-recalculation.service.ts:361-511 | For every bracket and any dates: a second recomputation changes nothing if and only if the first did not fill a part of a published first round that the seeding would change or add to |
| BracketRecompute.TwiceIsOnce | src/edition-actions/edition-action-recalculation.service.ts:361-511 | So twice is once whenever some round is defined, no publication resolves, or all first-round matches are scheduled |
| BracketRecompute.StatusIsIdempotent | src/edition-actions/edition-action-recalculation.service.ts:158-208 | The status settles at the first recomputation, always |
| BracketPlaces.ClosesExactly | src/edition-actions/edition-action-recalculation.service.ts:460-475 | A recomputation closes the tournament exactly when its last filled round is won, has one slot, and no third-place match waits |
| BracketLimits.PostponedLabelBreaksIdempotence | src/edition-actions/edition-action-recalculation.service.ts:615-652 | A published match postponed before it was filled: recomputing twice is not recomputing once, and after the first the round is no pairing |
| BracketLimits.ContestedRepeatsAnEntry | src/edition-actions/edition-action-recalculation.service.ts:839-846 | In every such bracket, an entry of a filled match that the seeding puts into the waiting slot plays twice once the one is started and the other rescheduled |
| BracketLimits.PostponedLabelRepeatsAnEntry | src/edition-actions/edition-action-recalculation.service.ts:839-846 | and a run from a freshly published bracket gets there: postponing, classifying, starting, rescheduling puts one entry into two matches |
| BracketLimits.RedeclaredWalkoverLeavesFinal | src/edition-actions/handlers/match-action.handler.ts:303-345 | A run from an empty bracket of four after which the final has the former winner of a semifinal that was declared again |
| BracketStore.Phase.FillRoundLoop | src/edition-actions/edition-action-recalculation.service.ts:824-863 | The loop over the pairs creates or fills exactly the specified rows |
| BracketStore.Phase.ByesLoop | src/edition-actions/edition-action-recalculation.service.ts:917-944 | The loop stores exactly the byes of the pairs |
| BracketStore.Phase.AdvancersLoop | src/edition-actions/edition-action-recalculation.service.ts:442-459 | The loop over the slots finds the winners and byes in slot order, or stops when a match has no winner |
| BracketStore.Phase.PublishedLoop | src/edition-actions/edition-action-recalculation.service.ts:615-652 | The loop over the published slots finds the pairs, or nothing if a label does not resolve or an entry is named twice |
| BracketStore.Phase.PlaceThird | src/edition-actions/edition-action-recalculation.service.ts:481-510 | The third-place match becomes exactly the specified one |
| BracketStore.Phase.CreateRound | src/edition-actions/edition-action-recalculation.service.ts:816-867 | Rows, byes and status after a round is created |
| BracketStore.Phase.ProgressKnockout | src/edition-actions/edition-action-recalculation.service.ts:361-511 | The stored phase becomes exactly the specified next phase, status included |
| Standings.Accumulate | src/edition-actions/edition-action-recalculation.service.ts:266-306 | The loop over the matches leaves in every cell exactly the sum of what each counted match gives that entry |
| Standings.AddMatch | src/edition-actions/edition-action-recalculation.service.ts:272-304 | One match adds to every cell exactly the entry's share of it and leaves all others alone |
| Standings.AddDiscipline | src/edition-actions/edition-action-recalculation.service.ts:284-288 | The loop over a match's events adds exactly the fair-play points of each member's own events, whoever played |
| Standings.CellOfPermutation | src/edition-actions/edition-action-recalculation.service.ts:266-306 | No cell depends on the order of the matches |
| Standings.TableConserves | src/edition-actions/edition-action-recalculation.service.ts:266-306 | Over a table total won equals total lost and total scored equals total conceded |
| Standings.RowAddsUp | src/edition-actions/edition-action-recalculation.service.ts:266-306 | In every row played is won plus drawn plus lost |
| Standings.ShareIsResult | src/edition-actions/edition-action-recalculation.service.ts:272-304 | A counted match gives each side its own result (played, won, drawn or lost, scores made and conceded, points of the rule) and nobody else anything |
| Standings.DisciplineIsOwn | src/edition-actions/edition-action-recalculation.service.ts:284-288 | The fair-play points of an entry are those of its own events, each once |
| Ranking.RankedKeepsEntries | src/edition-actions/edition-action-recalculation.service.ts:231-263 | The ranking lists exactly the given entries, each once |
| Ranking.RankedByCriteria | src/edition-actions/edition-action-recalculation.service.ts:308-343 | Any two ranked entries are ordered by the first criterion that separates them, points first, read within the block still tied at that criterion |
| Ranking.FirstSeparatingCriterion | src/edition-actions/edition-action-recalculation.service.ts:308-343 | That order, without recursion: x is ahead of y if and only if some criterion puts x ahead after all earlier ones tied them, or the chain ran out (or reached the lot) and x has the lower id |
| Ranking.MorePointsRankHigher | src/edition-actions/edition-action-recalculation.service.ts:239-246 | More table points always rank higher, whatever the tiebreakers |
| Ranking.FirstTiebreakerDecides | src/edition-actions/edition-action-recalculation.service.ts:345-359 | At equal points nobody comes after an entry that the first tiebreaker puts it over: more wins, better balance, more scored, fewer conceded, fewer disciplinary points, or the better mini-table among those level |
| Ranking.RankingIgnoresInputOrder | src/edition-actions/edition-action-recalculation.service.ts:231-343 | The ranking depends neither on the order of the entries nor on that of the matches |
| GroupTable.RankTied | src/edition-actions/edition-action-recalculation.service.ts:308-343 | The recursion over bucket maps and mini-tables computes the specified order of a block |
| GroupTable.RankDescending | src/edition-actions/edition-action-recalculation.service.ts:340-342 | Emptying the buckets from the highest value down, ranking each, is the specified order |
| GroupTable.Fill | src/edition-actions/edition-action-recalculation.service.ts:334-338 | The loop puts every entry into the bucket of its value, in order, one bucket per value |
| GroupTable.ValuesLoop | src/edition-actions/edition-action-recalculation.service.ts:320-359 | The criterion read off the accumulated rows, and off the block's own table for head to head, is the specified value |
| GroupTable.CellInside | src/edition-actions/edition-action-recalculation.service.ts:320-333 | Restricting the matches to those inside the block changes no cell of the block's table |
| GroupTable.ComputeStandings | src/edition-actions/edition-action-recalculation.service.ts:231-263 | One row per entry in input order, with its sums and the rank of its place in the ranking |
| HeadToHead.HeadToHeadIsLexicographic | src/edition-actions/edition-action-recalculation.service.ts:345-352 | With table points in multiples of a unit and mutual margins under 500 units in total, points*1000+balance orders a block as the pair (points, balance) does |
| HeadToHead.LexicographicExactly | src/edition-actions/edition-action-recalculation.service.ts:350-352 | For every rule and block: it orders two entries so if and only if their gap in points, times 1000, outweighs a balance that goes against it |
| HeadToHead.LexicographicBelowExactly | src/edition-actions/edition-action-recalculation.service.ts:350-352 | The exact bound of a rule: a bound on the total margin guarantees that order if and only if it is below 500 times the least gap in points its results can make |
| HeadToHead.LimitsOfThePresets | src/edition-actions/action-regulation.ts:66-138 | So the bound is 500 for the collective and basketball presets, 1500 for volleyball, and 250 for chess with its half points |
| HeadToHead.LimitLevelsTheValues | src/edition-actions/edition-action-recalculation.service.ts:350-352 | At exactly that margin some block has one entry a unit of points ahead of another and both values the same |
| Qualification.CollectQualifiers | src/edition-actions/edition-action-recalculation.service.ts:733-764 | The nested loops collect positions across groups, then the best thirds, as specified |
| Qualification.QualifierCount | src/edition-actions/edition-action-recalculation.service.ts:733-764 | min(perGroup, size) from each group plus min(bestThirds, groups larger than perGroup) |
| Qualification.QualifiersAreDistinct | src/edition-actions/edition-action-recalculation.service.ts:733-764 | Nobody qualifies twice, everyone ranked within perGroup does, and nobody ranked below perGroup+1 |
| Qualification.ChosenThirdsStandAhead | src/edition-actions/edition-action-recalculation.service.ts:742-763 | Every third that goes through has at least the points of every third that does not; at equal points at least the balance, then at least the score, then the lower id |
| Qualification.QualifiersInOrder | src/edition-actions/edition-action-recalculation.service.ts:733-764 | Qualifiers are listed by rank, equal direct ranks in the order of the groups, thirds the one that stands ahead first |
| Qualification.BestThirdsDominate | src/edition-actions/edition-action-recalculation.service.ts:742-763 | Of the sorted slots: every chosen third is better than every unchosen one |
| Classification.ComputedRanksAreBijective | src/edition-actions/edition-action-recalculation.service.ts:231-263 | Stored ranks of a group are a bijection onto 1..n, which the selection relies on |
| Classification.LeagueQualifiesInOrder | src/edition-actions/edition-action-recalculation.service.ts:724-732 | A league qualifies ranks 1, 2, ... in order, as many as qualify or as there are |
| Tournament.RecomputeIsIdempotentExactly | src/edition-actions/edition-action-recalculation.service.ts:55-208 | Tables, bracket and status: recomputing a tournament twice is recomputing it once if and only if the first does not fill a part of a published first round that the seeding would change |
| Tournament.RecomputePreservesMatches | src/edition-actions/edition-action-recalculation.service.ts:55-208 | A recomputation leaves the group phase alone and removes, moves or re-scores no bracket match |
| TournamentFlow.QualifiersPlayFirstRound | src/edition-actions/edition-action-recalculation.service.ts:513-598 | When the last group match is in and no bracket was published, the first round is played by exactly the qualified entries, each once, in a match or with a bye |
| TournamentFlow.GroupLabelNamesRank | src/edition-actions/edition-action-recalculation.service.ts:654-685 | A group label of a published bracket names the entry at that rank of that group, and nothing if there is no such rank |
| TournamentFlow.ThirdLabelNamesPlace | src/edition-actions/edition-action-recalculation.service.ts:686-704 | A best-third label names the third with exactly position-1 better ones, among all thirds, and nothing when there are fewer |
| TournamentFlow.ThirdLabelNamesStanding | src/edition-actions/edition-action-recalculation.service.ts:686-704 | The third a label names is the one that exactly position-1 other thirds stand ahead of by points, balance, score and id of their stored rows |
| TournamentFlow.QualifiedOnce | src/edition-actions/edition-action-recalculation.service.ts:706-764 | Over the computed tables of disjoint groups, as many entries qualify as there are places, nobody twice |
| TournamentFlow.TablesRankGroups | src/edition-actions/edition-action-recalculation.service.ts:93-139 | The tables computed group by group rank every group without gaps or ties |
| TournamentTables.StandingsAddUpResults | src/edition-actions/edition-action-recalculation.service.ts:93-139 | Recomputed, the row of an entry adds up every finished or walkover match of its group, and every one without a group that has both sides in it, each once |
| TournamentTables.OpenGroupMatchChangesNothing | src/edition-actions/edition-action-recalculation.service.ts:210-229 | A match of a group that is neither finished nor a walkover changes no row of any table, ranks included |
| TournamentTables.OpenLooseMatchChangesNothing | src/edition-actions/edition-action-recalculation.service.ts:210-229 | Nor does such a match without a group |
| TournamentTables.BracketWaitsExactly | src/edition-actions/edition-action-recalculation.service.ts:513-540 | The bracket waits for the groups exactly as long as one of their matches is open or none exists |
| TournamentTables.PublishedBecomesOngoingExactly | src/edition-actions/edition-action-recalculation.service.ts:158-208 | A published tournament becomes ongoing exactly when the bracket makes it so or one of its matches has started |
| TournamentRuns.RunIsBracketRun | src/edition-actions/edition-action-recalculation.service.ts:55-143 | Every run of group results, group rows changed without a recomputation, group corrections and bracket results of a tournament is a run of its bracket, with the sources the groups give |
| TournamentRuns.TournamentStaysConsistent | src/edition-actions/edition-action-recalculation.service.ts:55-143 | so over every such run whose bracket steps are safe the bracket stays consistent for the source computed from the groups |
| TournamentRuns.ChangedGroupsLeaveFirstRound | src/edition-actions/handlers/match-action.handler.ts:303-345 | A group walkover declared again reaches the tables and the source, but a first round that is all filled stays as it was |
| TournamentStore.PhaseTables | src/edition-actions/edition-action-recalculation.service.ts:93-139 | The loop over the groups stores exactly the specified tables |
| TournamentStore.Store.ComputeSource | src/edition-actions/edition-action-recalculation.service.ts:706-764 | Who enters the bracket is the entry list, nobody yet, or those the loops over the tables collect |
| TournamentStore.Store.RecomputeTournament | src/edition-actions/edition-action-recalculation.service.ts:55-143 | The stored tournament becomes exactly the specified recomputation |
| ActionPipeline.EveryRunSound | src/edition-actions/edition-actions.service.ts:234-427 | Over every run of attempts: one commit per route and key, one receipt per edition and key, each edition's revision is its start value plus the commits that list it, and each stored envelope carries the revision its commit produced |
| ActionPipeline.RepeatIsHarmless | src/edition-actions/edition-actions.service.ts:239-290 | After a request committed, whatever happens in between, any request with its route and key changes nothing and is answered with the stored envelope or refused; the same authorised request gets the envelope |
| ActionPipeline.OnlyCommitsChangeState | src/edition-actions/edition-actions.service.ts:234-427 | An attempt that is refused, replayed or aborted leaves no trace |
| ActionPipeline.CommitNeeds | src/edition-actions/edition-actions.service.ts:292-418 | A commit comes from an existing, authorised actor and a handler that succeeded in scope, is never a repeat, raises exactly the listed editions by one, and stores the receipt with the new revision |
| ActionPipeline.ReplayNeeds | src/edition-actions/edition-actions.service.ts:247-290 | A stored answer goes only to the user who got it, for the same payload, after the repeat was authorised too |
| ActionPipeline.EditionKeyIsAnswered | src/edition-actions/edition-actions.service.ts:302-328 | A key used before for the same edition is answered from its receipt or refused as different, and nothing else happens |
| ActionPipeline.CommitsHaveOwnRevisions | src/edition-actions/edition-actions.service.ts:358-372 | Two commits that list an edition give it different revisions, the later one the higher, so each revision is published by one commit |
| ActionPipeline.LastListingGivesRevision | src/edition-actions/edition-actions.service.ts:358-372 | After every run an edition's revision is the one its last listing commit gave it |
| ActionService.RequestTakesEffectOnce | src/edition-actions/edition-actions.service.ts:234-427 | However often the service retries, a request takes effect once, as its last step, if it is answered as committed, and otherwise not at all |
| ActionService.OnlyConflictsAreRepeated | src/edition-actions/edition-actions.service.ts:419-427 | Only an attempt that met a conflict is repeated, and a request ends as a conflict if and only if its last attempt met one |
| ActionService.Service.Execute | src/edition-actions/edition-actions.service.ts:234-427 | The retry loop: three attempts, other requests in between; a commit announces the new revision of each edition it listed, anything else nothing |
| ActionService.Service.Transact | src/edition-actions/edition-actions.service.ts:236-418 | The transaction's writes are all of the attempt or none of it, and its events carry the new revisions of exactly the listed editions |
| ActionService.Service.BumpRevisions | src/edition-actions/edition-actions.service.ts:358-372 | The loop adds one to each listed edition, to no other, and reports the new revisions in id order |
| JsonText.QuotedRead | src/edition-actions/edition-actions.service.ts:768-770 | Reading a printed string gives the string back and stops right after it, for every sequence of UTF-16 code units, lone surrogates included (section 7 of RFC 8259) |
| JsonText.PrintedIsShortest | src/edition-actions/edition-actions.service.ts:768-770 | No text without lone surrogates that reads as the same string is shorter than the printed one |
| JsonText.EscapeIsWellFormed | src/edition-actions/edition-actions.service.ts:768-770 | and the printed one has neither a lone surrogate nor a control character in it |
| JsonRoundTrip.CanonicalTextRoundTrip | src/edition-actions/edition-actions.service.ts:767-782 | The canonical text is one JSON text by the grammar of RFC 8259, sections 4, 5 and 7, and reading it gives the value with fields sorted and undefined ones dropped |
| JsonRoundTrip.PrintedLiterals | src/edition-actions/edition-actions.service.ts:767-782 | The literals and the empty list and object, in characters |
| JsonRoundTrip.PrintedList | src/edition-actions/edition-actions.service.ts:772-772 | The punctuation of a list, in characters |
| JsonRoundTrip.PrintedObject | src/edition-actions/edition-actions.service.ts:777-780 | The punctuation of an object, in characters |
| JsonEquality.EntriesSorted | src/edition-actions/edition-actions.service.ts:773-777 | No field is printed before one whose key is smaller |
| JsonEquality.SameTextSameValue | src/edition-actions/edition-actions.service.ts:748-782 | Equal text means equal values up to field order and dropped undefined fields, under any comparison of keys |
| JsonEquality.SameValueSameText | src/edition-actions/edition-actions.service.ts:767-782 | Equal values have equal text under a comparison that ties no two keys |
| JsonEquality.CanonicalExactlyUnderTotalOrders | src/edition-actions/edition-actions.service.ts:774-777 | The text identifies the value if and only if the comparison of keys never ties two different ones |
| RevisionStream.EveryRunSound | src/realtime/realtime.service.ts:45-121 | Under every interleaving of commits, publishes, losses, trimming, reads, deliveries and heartbeats: every revision is pending, lost or published, and every position the subscriber has accounted for is at or below its revision |
| RevisionStream.EmittedIncreasesUpToCommitted | src/realtime/edition-realtime.controller.ts:65-133 | What one connection emits strictly increases, with ids that never go back, and never passes the committed revision |
| RevisionStream.ConsumedIsUpToDate | src/realtime/realtime.service.ts:45-64 | A subscriber that read the stream to its end and passed over no position is at or past every published revision, and at the committed one when none is lost or pending |
| RevisionStream.CarefulSubscriberIsUpToDate | src/realtime/realtime.service.ts:148-169 | With nothing left to read, that holds in every run where revisions are read once the stream has reached the resumed position and the length limit drops nothing an open subscriber has yet to read |
| RevisionStream.UpToDateExactly | src/realtime/realtime.service.ts:148-169 | In every sound state, the client is up to date at the end of every careful continuation if and only if its cursor is not past the end and every published revision has reached it or is overtaken by one it has yet to read |
| RevisionStream.ResumedIsUpToDateExactly | src/realtime/realtime.service.ts:49-54 | After every run, for every log and resumed id: a connection that reads the revision now stays up to date if and only if the stream has reached that id |
| RevisionStream.TrimKeepsUpToDateExactly | src/realtime/realtime.service.ts:104-114 | Trimming leaves an up-to-date client so if and only if every unread revision it drops is known to the client or older than one that is kept |
| RevisionStream.HeartbeatCatchesUp | src/realtime/edition-realtime.controller.ts:91-107 | Whatever happens between reading and applying it, a heartbeat that succeeds leaves the client at or past what was committed when it was read, lost messages or not |
| RevisionStream.HeartbeatRestoresUpToDate | src/realtime/edition-realtime.controller.ts:91-107 | and puts a client that was left behind back on track for good, unless its cursor was past the end of the stream when the heartbeat was read |
| RevisionStream.OvertakenRevisionIsTrimmed | src/realtime/realtime.service.ts:104-114 | A revision overtaken by a thousand older publishes is trimmed before an open subscriber reads it |
| RevisionStream.DrainedIsRun | src/realtime/realtime.service.ts:149-170 | Reading the stream to its end is a run of deliveries |
| RevisionStream.ConnectionStartsWhereAsked | src/realtime/realtime.service.ts:45-64 | A connection without an id sends from the end of the stream on, one with an id from that id on, and never goes back |
| RevisionStream.DeliveryCarriesItsPosition | src/realtime/edition-realtime.controller.ts:76-89 | A delivered message moves the cursor behind its position and is sent on, with that id, exactly if its revision is new to the client |
| StreamSubscriber.Connection.ReadStream | src/realtime/realtime.service.ts:148-170 | The batch-reading loop makes exactly those deliveries and ends at the end of the stream |
| StreamSubscriber.Connection.OnMessage | src/realtime/edition-realtime.controller.ts:76-89 | Cursor and current revision after one message |
| StreamSubscriber.Connection.OnHeartbeat | src/realtime/edition-realtime.controller.ts:91-107 | Cursor and current revision after a heartbeat that succeeds or fails |
| LegacyTheorems.SortKeepsTeams | src/standings/standings-calculator.ts:134-187 | For any tiebreakers that order every tied subset, the restarting sort returns each team once, in the order they give; the recursion ends by fewer teams, or as many and fewer tiebreakers left |
| LegacyTheorems.SortIgnoresInputOrder | src/standings/standings-calculator.ts:134-187 | The order the teams came in does not matter |
| LegacyTheorems.SortedByFirstTiebreaker | src/standings/standings-calculator.ts:134-187 | Nobody is behind a later team by the first tiebreaker |
| LegacyTheorems.PrecedesAsymmetric | src/standings/standings-calculator.ts:134-187 | Two teams are never ahead of each other, however often the chain restarts |
| LegacyStandings.GroupTied | src/standings/standings-calculator.ts:162-179 | The grouping loop splits the sorted list into the specified runs of tied neighbours |
| LegacyStandings.RunsDescend | src/standings/standings-calculator.ts:162-179 | Those runs are tied inside and strictly better than every later run |
| LegacyRanks.SortTeamsLoop | src/standings/standings-calculator.ts:134-187 | The recursion with its loops computes the specified order |
| LegacyRanks.ResolveLoop | src/standings/standings-calculator.ts:181-186 | The loop over the groups restarts the chain for smaller groups, continues it for the others, and concatenates |
| LegacyStrategies.ChainCoherent | src/standings/strategies/head-to-head.strategy.ts:16-45 | Whatever strategies are named, each orders every tied subset, ties allowed, which is all the sort relies on |
| LegacyStrategies.CompareHeadToHead | src/standings/strategies/head-to-head.strategy.ts:16-45 | The mini-table loop returns the difference of the points won in matches inside the subset |
| LegacyLevels.FirstStrategyDecides | src/standings/strategies/head-to-head.strategy.ts:16-45 | Nobody comes after a team the first strategy puts it over: more points, goal difference, goals, or points among the tied alone |
| LegacyRanks.AssignRanks | src/standings/standings-calculator.ts:207-244 | The loop gives every entry its specified rank |
| LegacyRanks.RankStartsRun | src/standings/standings-calculator.ts:207-244 | A rank is one more than the number of entries before the run of level neighbours the entry is in |
| LegacyRanks.SharedRankExactly | src/standings/standings-calculator.ts:220-241 | Two entries share a rank if and only if all neighbours from one to the other are level |
| LegacyLevels.LevelTransitive | src/standings/standings-calculator.ts:225-236 | Without head to head being level is transitive |
| LegacyLevels.RanksAreSoundExactly | src/standings/standings-calculator.ts:207-244 | A list of tiebreakers makes every two entries that share a rank level with each other, in every phase, if and only if head to head is not on the list |

## Left out

- BracketRuns.BracketStaysConsistent: runs are safe runs, as defined above; manual participant substitution, match
  deletion, `match/schedule`, which can add rows to a bracket during a run, and match regeneration are not steps,
  because they override the bracket on purpose.
- RevisionStream.CarefulSubscriberIsUpToDate: carries the conditions on resumed ids and trimming, each of which has
  its exact form beside it.
- MatchHistory.UndoReturnsToBeforeTheEvent: runs end before the whistle (undo after it is the finding above), and
  event ids are unique within one match, not across matches.
- MatchDesk.Desk.RegisterEvent: whether the roster has the named athlete is a parameter of the request; the texts and
  times stored with an event are not kept.
- MatchDesk.Desk.StartMatch: the client's clock start and the note are not kept; a request without a device id is
  refused before it gets here.
- TournamentStore.Store.RecomputeTournament: one group phase or none, and one bracket; a league instead of the groups,
  several classification phases, and closing a tournament that has no knockout are not part of it.
- Standings.TableConserves: covers wins, losses and scores; table points are conserved only for regulations with
  win + loss = 2 * draw and are not stated.
- Classification.LeagueQualifiesInOrder: a league's qualifiers are modelled beside the group selection; the
  recomputed tournament takes its qualifiers from groups, or from the entry list when there is no group phase.
- MatchResults.CorrectResult: changes scores and winner; partials stay as they were, as in the code, and nothing is
  claimed about their sum afterwards.
- ActionPipeline.EveryRunSound: editions are never deleted and receipts never cascade away; the envelope's snapshot
  is an opaque value next to its revision.
- Walkover scores (read from the configuration) and the `schedule`, `update`, `start` and `delete` payload checks.
- Attributing an event to an athlete afterwards (`attributeEvent`), which changes no score.
- Half-time clocks: `runningSince` is present or absent, not a time.
- Half points in live scoring: one unit of the model is the smallest unit a regulation uses.
- Parsing of configuration, of bracket labels and of tiebreak payloads; a label is an abstract key to a placement.
- Dates of created rounds (`nextDate`) are parameters. Of the status sync, the published-to-ongoing step is modelled;
  the edition's own status is not.
- Number texts in the canonical form are opaque runs of number characters (section 6 of RFC 8259 is not modelled);
  values other than JSON values, undefined and non-finite numbers do not occur.
- The stream's time to live, the `active` alias, which re-reads the revision per message, and events of match streams.
- Snapshot mapping, authorization tables, catalog, staff and award actions, SSE connection limits and sessions.
- `calculateBasicStats` is the same loop as the current table's with three, one and no points, so the older ranking
  reads its cells from `Standings`.
