/**
 * The startup-migration lock document and the pure rules that rewrite it
 * (api/src/couchdb/startupMigrationLock.ts and, for the operator commands,
 * api/scripts/debugMigrationLock.ts).
 */
module LockDoc {
  import opened Prelude

  const MAX_LOCK_HISTORY: nat := 10

  /** Who a lock names as its holder: a starting instance or the operator tool. */
  datatype Holder = Instance(index: nat) | Operator(index: nat)

  datatype Outcome = Complete | Failed
  datatype Status = Running | Settled(outcome: Outcome)
  datatype AttemptStatus = Finished(outcome: Outcome) | TimedOut

  /** One archived attempt. */
  datatype Attempt = Attempt(
    holder: Holder,
    startedAt: int,
    finishedAt: int,
    status: AttemptStatus,
    error: Option<string>)

  datatype Lock = Lock(
    status: Status,
    holder: Holder,
    startedAt: int,
    updatedAt: int,
    attempt: nat,
    error: Option<string>,
    history: seq<Attempt>)

  /** A lock as read back from the store, with its revision. */
  datatype Stored = Stored(lock: Lock, rev: nat)

  predicate IsExpired(lock: Lock, now: int, timeout: nat) {
    now - lock.startedAt >= timeout
  }

  /** A running lock young enough to be waited for. */
  predicate IsLive(doc: Option<Stored>, now: int, timeout: nat) {
    doc.Some? && doc.value.lock.status.Running? && !IsExpired(doc.value.lock, now, timeout)
  }

  /** The row a steal writes for the attempt it displaces. */
  function TimedOutRow(lock: Lock, now: int, error: Option<string>): Attempt {
    Attempt(lock.holder, lock.startedAt, now, TimedOut, error)
  }

  function ArchiveRunningAttempt(lock: Lock, now: int): seq<Attempt> {
    if !lock.status.Running? then lock.history
    else LastN(lock.history + [TimedOutRow(lock, now, None)], MAX_LOCK_HISTORY)
  }

  /** The document a claimant puts over what it read. */
  function ClaimOver(existing: Option<Stored>, id: Holder, now: int): Lock {
    Lock(Running, id, now, now,
         (if existing.Some? then existing.value.lock.attempt else 0) + 1,
         None,
         if existing.Some? then ArchiveRunningAttempt(existing.value.lock, now) else [])
  }

  function SettledRow(lock: Lock, outcome: Outcome, error: Option<string>, now: int): Attempt {
    Attempt(lock.holder, lock.startedAt, now, Finished(outcome), error)
  }

  /** The document a doer puts to settle its own attempt. */
  function SettleOver(lock: Lock, outcome: Outcome, error: Option<string>, now: int): Lock {
    lock.(status := Settled(outcome), updatedAt := now, error := error,
          history := LastN(lock.history + [SettledRow(lock, outcome, error, now)], MAX_LOCK_HISTORY))
  }

  /** The reason `forceUnlock` records when none is given. */
  function UnlockReason(lock: Lock, reason: Option<string>): string {
    match reason
    case Some(text) => text
    case None => if lock.status.Running? then "admin unlock" else "admin unlock --force rewrite"
  }

  /** The document `forceUnlock` puts. */
  function UnlockOver(lock: Lock, outcome: Outcome, reason: string, now: int): Lock {
    lock.(status := Settled(outcome), updatedAt := now,
          error := if outcome.Failed? then Some(reason) else None,
          history := LastN(lock.history + [SettledRow(lock, outcome, Some(reason), now)], MAX_LOCK_HISTORY))
  }

  /** The document `forceClaim` puts. */
  function OperatorClaimOver(existing: Option<Stored>, id: Holder, now: int): Lock {
    Lock(Running, id, now, now,
         (if existing.Some? then existing.value.lock.attempt else 0) + 1,
         None,
         if existing.None? then []
         else if existing.value.lock.status.Running?
         then LastN(existing.value.lock.history + [TimedOutRow(existing.value.lock, now, Some("admin claim"))],
                    MAX_LOCK_HISTORY)
         else existing.value.lock.history)
  }

  /** `classifyLock(...).stealable`; absent unless the lock is running. */
  function Stealable(doc: Option<Stored>, now: int, timeout: nat): Option<bool> {
    if doc.None? || !doc.value.lock.status.Running? then None
    else Some(now - doc.value.lock.startedAt >= timeout)
  }

  /** The operator tool calls a lock stealable exactly when a claimant would steal it. */
  lemma StealableAgreesWithClaim(doc: Option<Stored>, now: int, timeout: nat)
    ensures (Stealable(doc, now, timeout) == Some(true))
       <==> (doc.Some? && doc.value.lock.status.Running? && !IsLive(doc, now, timeout))
  {
  }

  // ----- I/O backoff

  function Pow2(n: nat): (p: nat)
    ensures p >= 1
  {
    if n == 0 then 1 else 2 * Pow2(n - 1)
  }

  /** Delay after the n-th consecutive lock I/O failure, counting from 1. */
  function IoBackoff(consecutiveErrors: nat, base: nat, cap: nat): nat {
    Min(cap, base * Pow2(Max(0, consecutiveErrors - 1)))
  }

  /** Total delay of a streak of n retries. */
  function BackoffTotal(n: nat, base: nat, cap: nat): nat {
    if n == 0 then 0 else BackoffTotal(n - 1, base, cap) + IoBackoff(n, base, cap)
  }

  lemma Doubling(n: nat, base: nat)
    requires n > 0
    ensures base * (Pow2(n) - 1) == base * (Pow2(n - 1) - 1) + base * Pow2(n - 1)
    ensures base * Pow2(n) == 2 * (base * Pow2(n - 1))
  {
    var p := Pow2(n - 1);
    assert base * (2 * p - 1) == base * (p - 1) + base * p;
    assert base * (2 * p) == 2 * (base * p);
  }

  lemma {:induction false} BackoffTotalBound(n: nat, base: nat, cap: nat)
    ensures BackoffTotal(n, base, cap) <= base * (Pow2(n) - 1)
  {
    if n > 0 {
      BackoffTotalBound(n - 1, base, cap);
      Doubling(n, base);
    }
  }

  /** A streak of n retries waits base * (2^n - 1) in total exactly when its last delay is within the cap. */
  lemma {:induction false} BackoffTotalExact(n: nat, base: nat, cap: nat)
    ensures BackoffTotal(n, base, cap) == base * (Pow2(n) - 1)
       <==> (n == 0 || base * Pow2(n - 1) <= cap)
  {
    if n > 0 {
      BackoffTotalBound(n - 1, base, cap);
      BackoffTotalExact(n - 1, base, cap);
      Doubling(n, base);
      if n > 1 {
        Doubling(n - 1, base);
      }
    }
  }
}
