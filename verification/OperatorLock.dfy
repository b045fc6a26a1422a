/** The operator lock of a live match: who may act on it, for how long, and who may take it over. */
module OperatorLock {
  import opened Wrappers

  /** A user on a device. */
  datatype Operator = Operator(user: nat, device: nat)

  /** Times are milliseconds; only starting and claiming set the heartbeat, acting does not. */
  datatype Lock = Lock(holder: Option<Operator>, heartbeat: Option<int>)

  const OPERATOR_LOCK_MS := 120000

  const UNLOCKED: Lock := Lock(None, None)

  predicate Fresh(lock: Lock, now: int) {
    lock.heartbeat.Some? && lock.heartbeat.value >= now - OPERATOR_LOCK_MS
  }

  predicate MayOperate(lock: Lock, who: Operator, now: int) {
    Fresh(lock, now) && lock.holder == Some(who)
  }

  predicate MayClaim(lock: Lock, who: Operator, now: int, force: bool) {
    || force || lock.holder.None? || lock.holder == Some(who) || lock.heartbeat.None?
    || lock.heartbeat.value < now - OPERATOR_LOCK_MS
  }

  datatype Step =
    | Claim(who: Operator, force: bool, at: int)
    | Release(who: Operator, at: int)
    | Act(who: Operator, at: int)
    | Clear(at: int)

  /** A claim that is accepted takes the lock; whoever holds a fresh lock may release it; a result sheet clears it. */
  function Take(lock: Lock, step: Step): Lock {
    match step
    case Claim(who, force, at) => if MayClaim(lock, who, at, force) then Lock(Some(who), Some(at)) else lock
    case Release(who, at) => if MayOperate(lock, who, at) then UNLOCKED else lock
    case Act(_, _) => lock
    case Clear(_) => UNLOCKED
  }

  function Run(lock: Lock, steps: seq<Step>): Lock {
    if steps == [] then lock else Take(Run(lock, steps[..|steps| - 1]), steps[|steps| - 1])
  }

  /** A claim without force is refused exactly when somebody else may operate at that moment. */
  lemma {:induction false} ClaimRefusedExactly(lock: Lock, who: Operator, now: int)
    ensures !MayClaim(lock, who, now, false) <==> exists other :: other != who && MayOperate(lock, other, now)
  {
    if !MayClaim(lock, who, now, false) {
      assert lock.holder.value != who && MayOperate(lock, lock.holder.value, now);
    }
  }

  /** Force always takes the lock; whoever takes it holds it, and may act, from that moment. */
  lemma {:induction false} ClaimTakesOver(lock: Lock, who: Operator, force: bool, now: int)
    requires force || MayClaim(lock, who, now, false)
    ensures Take(lock, Claim(who, force, now)) == Lock(Some(who), Some(now))
    ensures MayOperate(Take(lock, Claim(who, force, now)), who, now)
  {
  }

  /** The lock is given up by whoever may act under it, and then free for all; nobody else's release does anything. */
  lemma {:induction false} ReleaseFrees(lock: Lock, who: Operator, now: int, other: Operator, later: int)
    ensures MayOperate(lock, who, now) ==> MayClaim(Take(lock, Release(who, now)), other, later, false)
    ensures MayOperate(lock, who, now) ==> !MayOperate(Take(lock, Release(who, now)), other, later)
    ensures !MayOperate(lock, who, now) ==> Take(lock, Release(who, now)) == lock
  {
  }

  /** Nobody is made to give up the lock: no forced claim by another, no release by the holder, no result sheet. */
  predicate LeavesAlone(step: Step, who: Operator) {
    && (step.Claim? && step.force ==> step.who == who)
    && (step.Release? ==> step.who != who)
    && !step.Clear?
  }

  /** The steps of the time a claim made at `from` lasts. */
  predicate Within(step: Step, from: int) {
    from <= step.at <= from + OPERATOR_LOCK_MS
  }

  ghost predicate HeldSince(lock: Lock, who: Operator, from: int) {
    lock.holder == Some(who) && lock.heartbeat.Some? && lock.heartbeat.value >= from
  }

  lemma {:induction false} LockKept(lock: Lock, steps: seq<Step>, who: Operator, from: int)
    requires HeldSince(lock, who, from)
    requires forall i | 0 <= i < |steps| :: LeavesAlone(steps[i], who) && Within(steps[i], from)
    ensures HeldSince(Run(lock, steps), who, from)
  {
    if steps != [] {
      var n := |steps| - 1;
      LockKept(lock, steps[..n], who, from);
      assert LeavesAlone(steps[n], who) && Within(steps[n], from);
    }
  }

  /**
   * For two minutes from a claim, and whatever the others try without force in whatever order, the claimer may operate
   * and nobody else may, unless the claimer releases the lock or a result sheet clears it.
   */
  lemma {:induction false} ClaimerAloneOperates(
      lock: Lock, who: Operator, force: bool, from: int, steps: seq<Step>, someone: Operator, now: int)
    requires MayClaim(lock, who, from, force) && from <= now <= from + OPERATOR_LOCK_MS
    requires forall i | 0 <= i < |steps| :: LeavesAlone(steps[i], who) && Within(steps[i], from)
    ensures MayOperate(Run(Take(lock, Claim(who, force, from)), steps), someone, now) <==> someone == who
  {
    LockKept(Take(lock, Claim(who, force, from)), steps, who, from);
  }

  /** Acting does not renew a lock: unless its holder claims again, anyone may claim it once the two minutes are over. */
  lemma {:induction false} LockRunsOut(lock: Lock, steps: seq<Step>, other: Operator, now: int)
    requires lock.heartbeat.Some? && now > lock.heartbeat.value + OPERATOR_LOCK_MS
    requires forall i | 0 <= i < |steps| :: !steps[i].Claim?
    ensures MayClaim(Run(lock, steps), other, now, false)
  {
    NoClaimNoRenewal(lock, steps);
  }

  lemma {:induction false} NoClaimNoRenewal(lock: Lock, steps: seq<Step>)
    requires forall i | 0 <= i < |steps| :: !steps[i].Claim?
    ensures Run(lock, steps) == lock || Run(lock, steps) == UNLOCKED
  {
    if steps != [] {
      NoClaimNoRenewal(lock, steps[..|steps| - 1]);
    }
  }
}
