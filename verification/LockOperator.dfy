/**
 * The operator's lock commands (`forceUnlock`, `deleteLock`, `forceClaim` of
 * api/scripts/debugMigrationLock.ts) against a lock that callers and other operators keep changing.
 * Each command is proved to take its two protocol steps and nothing else, so the theorems about
 * runs with operators hold of it.
 */
module LockOperator {
  import opened Prelude
  import opened LockDoc
  import P = LockProtocol
  import opened LockProgress
  import opened LockSafety
  import opened LockTermination
  import opened LockClient

  datatype Answer<T> = Done(value: T) | Thrown

  /** `changed` with the document before and after. */
  datatype Change = Change(changed: bool, before: Option<Stored>, after: Option<Lock>)

  /** Operator a can start a command that samples the clock at `nowMs`. */
  predicate Ready(w: World, a: nat, nowMs: int)
    reads w
  {
    !w.tame && a < |w.s.operators| && w.s.operators[a].Idle? && nowMs <= w.s.now
  }

  /** `readLock`, after which the command knows what it will write, if anything. */
  method ReadLock(w: World, a: nat, nowMs: int, command: P.Command) returns (r: Read)
    requires w.Consistent() && Ready(w, a, nowMs)
    modifies w
    ensures w.Advanced()
    ensures w.s.operators[a] == if r.ReadError? then P.Idle
                                else P.OperatorPlan(w.cfg, a, if r.Found? then Some(r.doc) else None, nowMs, command)
    ensures r.Found? ==> w.s.doc == Some(r.doc)
    ensures r.Missing? ==> w.s.doc.None?
  {
    hide Inv, Measure, AllTame, SleepsAdvance, P.Valid, P.Run;
    w.Interfere(Actor.Operator(a));
    var works: bool := *;
    if !works {
      return ReadError;
    }
    r := if w.s.doc.Some? then Found(w.s.doc.value) else Missing;
    w.Do(P.OperatorRead(a, w.s.now, nowMs, command));
  }

  /**
   * The write a command has planned: it takes effect exactly when the revision read is still stored
   * and the write reaches the store. `ok` says that it did; an error may hide that it did.
   */
  method Write(w: World, a: nat, rev: Option<nat>) returns (ok: bool, ghost before: State, ghost io: P.Io)
    requires w.Consistent() && !w.tame && a < |w.s.operators|
    requires match w.s.operators[a]
             case Idle => false
             case PendingPut(read, _) => rev == RevOf(read)
             case PendingRemove(removing) => rev == Some(removing.rev)
    modifies w
    ensures w.Advanced() && w.s.operators[a].Idle? && w.Stepped(before, P.OperatorWrite(a, w.s.now, io))
    ensures a < |before.operators| && before.operators[a] == old(w.s.operators[a]) && Inv(w.cfg, before)
    ensures ok <==> io.Ok? && RevMatches(before.doc, rev)
    ensures w.s.doc == if io.Fail? || !RevMatches(before.doc, rev) then before.doc
                       else if old(w.s.operators[a]).PendingRemove? then None
                       else Some(Stored(old(w.s.operators[a]).write.lock, before.nextRev))
  {
    hide Inv, Measure, AllTame, SleepsAdvance, P.Valid, P.Run;
    w.Interfere(Actor.Operator(a));
    var answer: P.Io := *;
    ok := answer.Ok? && RevMatches(w.s.doc, rev);
    before, io := w.s, answer;
    ConsistentInv(w);
    w.Do(P.OperatorWrite(a, w.s.now, answer));
  }

  lemma ConsistentInv(w: World)
    requires w.Consistent()
    ensures Inv(w.cfg, w.s)
  {
  }

  /** A revision that still fits means that the document the operator read is the document stored. */
  lemma FittingRead(cfg: P.Config, s: State, a: nat)
    requires Inv(cfg, s) && a < |s.operators|
    ensures match s.operators[a]
            case Idle => true
            case PendingPut(read, _) => RevMatches(s.doc, RevOf(read)) ==> s.doc == read
            case PendingRemove(removing) => RevMatches(s.doc, Some(removing.rev)) ==> s.doc == Some(removing)
  {
    assert OperatorOk(s, a);
  }

  /** `putLock`: a conflict and any other error both throw. */
  method PutLock(w: World, a: nat, lock: Lock, rev: Option<nat>) returns (ok: bool, ghost before: State, ghost io: P.Io)
    requires w.Consistent() && !w.tame && a < |w.s.operators| && w.s.operators[a].PendingPut?
    requires lock == w.s.operators[a].write.lock && rev == RevOf(w.s.operators[a].before)
    modifies w
    ensures w.Advanced() && w.s.operators[a].Idle? && w.Stepped(before, P.OperatorWrite(a, w.s.now, io))
    ensures ok <==> io.Ok? && RevMatches(before.doc, rev)
    ensures RevMatches(before.doc, rev) ==> before.doc == old(w.s.operators[a].before)
    ensures w.s.doc == if !io.Fail? && RevMatches(before.doc, rev) then Some(Stored(lock, before.nextRev)) else before.doc
  {
    ok, before, io := Write(w, a, rev);
    FittingRead(w.cfg, before, a);
  }

  /** How a command with a write ends: as planned exactly when the write took effect and was acknowledged. */
  ghost predicate Answered<T>(w: World, a: nat, r: Answer<T>, read: Read, before: State, put: Option<P.Io>)
    reads w
  {
    put.Some? ==>
      && w.Stepped(before, P.OperatorWrite(a, w.s.now, put.value))
      && (r.Done? <==> put.value.Ok? && Fits(before.doc, DocOf(read)))
      && (Fits(before.doc, DocOf(read)) ==> before.doc == DocOf(read))
      && (put.value.Fail? || !Fits(before.doc, DocOf(read)) ==> w.s.doc == before.doc)
  }

  /** The lock that `forceUnlock` puts over `prior`. */
  predicate IsUnlock(lock: Lock, prior: Lock, outcome: Outcome, reason: Option<string>, nowMs: int) {
    var why := if reason.Some? then reason.value
               else if prior.status.Running? then "admin unlock" else "admin unlock --force rewrite";
    && lock.status == Settled(outcome) && lock.updatedAt == nowMs && lock.error == (if outcome.Failed? then Some(why) else None)
    && lock.holder == prior.holder && lock.startedAt == prior.startedAt && lock.attempt == prior.attempt
    && lock.history == LastN(prior.history + [Attempt(prior.holder, prior.startedAt, nowMs, Finished(outcome), Some(why))], 10)
  }

  /** The lock that `forceClaim` puts over what it read: a claim, whose steal says that an operator made it. */
  predicate IsOperatorClaim(lock: Lock, read: Option<Stored>, a: nat, nowMs: int) {
    && lock.status.Running? && lock.holder == Holder.Operator(a) && lock.startedAt == nowMs == lock.updatedAt && lock.error.None?
    && match read
       case None => lock.attempt == 1 && lock.history == []
       case Some(prior) =>
         && lock.attempt == prior.lock.attempt + 1
         && lock.history ==
            (if prior.lock.status.Running?
             then LastN(prior.lock.history + [Attempt(prior.lock.holder, prior.lock.startedAt, nowMs, TimedOut, Some("admin claim"))], 10)
             else prior.lock.history)
  }

  /**
   * `forceUnlock`: settles the lock by hand. It throws when there is no lock, leaves a settled lock alone
   * unless forced, and otherwise puts the settlement.
   */
  method ForceUnlock(w: World, a: nat, nowMs: int, outcome: Outcome, reason: Option<string>, force: bool)
    returns (r: Answer<Change>, ghost read: Read, ghost before: State, ghost put: Option<P.Io>)
    requires w.Consistent() && Ready(w, a, nowMs)
    modifies w
    ensures w.Advanced() && w.s.operators[a].Idle?
    ensures put.Some? <==> read.Found? && (read.doc.lock.status.Running? || force)
    ensures !read.Found? ==> r.Thrown?
    ensures read.Found? && put.None? ==> r == Done(Change(false, Some(read.doc), Some(read.doc.lock))) && w.s.doc == DocOf(read)
    ensures Answered(w, a, r, read, before, put)
    ensures put.Some? && !put.value.Fail? && Fits(before.doc, DocOf(read)) ==>
      w.s.doc.Some? && IsUnlock(w.s.doc.value.lock, read.doc.lock, outcome, reason, nowMs)
    ensures put.Some? && r.Done? ==> w.s.doc.Some? && r.value == Change(true, Some(read.doc), Some(w.s.doc.value.lock))
  {
    put := None;
    var found := ReadLock(w, a, nowMs, P.Unlock(outcome, reason, force));
    read, before := found, w.s;
    if !found.Found? {
      return Thrown, read, before, put;
    }
    var lock := found.doc.lock;
    if !lock.status.Running? && !force {
      return Done(Change(false, Some(found.doc), Some(lock))), read, before, put;
    }
    var why := if reason.Some? then reason.value
               else if lock.status.Running? then "admin unlock" else "admin unlock --force rewrite";
    var row := Attempt(lock.holder, lock.startedAt, nowMs, Finished(outcome), Some(why));
    var after := lock.(status := Settled(outcome), updatedAt := nowMs,
                       error := if outcome.Failed? then Some(why) else None,
                       history := LastN(lock.history + [row], MAX_LOCK_HISTORY));
    var ok;
    ghost var io;
    ok, before, io := PutLock(w, a, after, Some(found.doc.rev));
    put := Some(io);
    r := if ok then Done(Change(true, Some(found.doc), Some(after))) else Thrown;
  }

  /** `deleteLock`: removes the lock document, at the revision read; without one there is nothing to do. */
  method DeleteLock(w: World, a: nat, nowMs: int) returns (r: Answer<Change>, ghost read: Read, ghost before: State, ghost put: Option<P.Io>)
    requires w.Consistent() && Ready(w, a, nowMs)
    modifies w
    ensures w.Advanced() && w.s.operators[a].Idle?
    ensures put.Some? <==> read.Found?
    ensures read.ReadError? ==> r.Thrown?
    ensures read.Missing? ==> r == Done(Change(false, None, None)) && w.s.doc.None?
    ensures Answered(w, a, r, read, before, put)
    ensures put.Some? && !put.value.Fail? && Fits(before.doc, DocOf(read)) ==> w.s.doc.None?
    ensures put.Some? && r.Done? ==> r.value == Change(true, Some(read.doc), None)
  {
    put := None;
    var found := ReadLock(w, a, nowMs, P.Delete);
    read, before := found, w.s;
    match found
    case ReadError => r := Thrown;
    case Missing => r := Done(Change(false, None, None));
    case Found(doc) =>
      var ok;
      ghost var io;
      ok, before, io := Write(w, a, Some(doc.rev));
      put := Some(io);
      FittingRead(w.cfg, before, a);
      r := if ok then Done(Change(true, Some(doc), None)) else Thrown;
  }

  /** `forceClaim`: takes the lock for the operator, but a running one younger than the timeout only when forced. */
  method ForceClaim(w: World, a: nat, nowMs: int, force: bool)
    returns (r: Answer<Change>, ghost read: Read, ghost before: State, ghost put: Option<P.Io>)
    requires w.Consistent() && Ready(w, a, nowMs)
    modifies w
    ensures w.Advanced() && w.s.operators[a].Idle?
    ensures put.Some? <==> !read.ReadError? && (force || !Young(DocOf(read), nowMs, w.cfg.timeout))
    ensures put.None? ==> r.Thrown? && (!read.ReadError? ==> w.s.doc == DocOf(read))
    ensures Answered(w, a, r, read, before, put)
    ensures put.Some? && !put.value.Fail? && Fits(before.doc, DocOf(read)) ==>
      w.s.doc.Some? && IsOperatorClaim(w.s.doc.value.lock, DocOf(read), a, nowMs)
    ensures put.Some? && r.Done? ==> w.s.doc.Some? && r.value == Change(true, DocOf(read), Some(w.s.doc.value.lock))
  {
    put := None;
    var answer := ReadLock(w, a, nowMs, P.ForceClaim(force));
    read, before := answer, w.s;
    if answer.ReadError? {
      return Thrown, read, before, put;
    }
    var found := if answer.Found? then Some(answer.doc) else None;
    if found.Some? && found.value.lock.status.Running? && nowMs - found.value.lock.startedAt < w.cfg.timeout && !force {
      return Thrown, read, before, put;
    }
    var stolen := found.Some? && found.value.lock.status.Running?;
    var history := [];
    if stolen {
      var lock := found.value.lock;
      var row := Attempt(lock.holder, lock.startedAt, nowMs, TimedOut, Some("admin claim"));
      history := LastN(lock.history + [row], MAX_LOCK_HISTORY);
    } else if found.Some? {
      history := found.value.lock.history;
    }
    var after := Lock(Running, Holder.Operator(a), nowMs, nowMs,
                      (if found.Some? then found.value.lock.attempt else 0) + 1, None, history);
    var ok;
    ghost var io;
    ok, before, io := PutLock(w, a, after, RevOf(found));
    put := Some(io);
    r := if ok then Done(Change(true, found, Some(after))) else Thrown;
  }
}
