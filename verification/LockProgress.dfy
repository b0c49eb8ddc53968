/**
 * That callers get on: a waiter that reads a settled lock is done, a doer that kept its lock leaves
 * its settlement, a claimant that finds the lock free gets it. Stated on the stored document's own
 * fields (api/src/couchdb/startupMigrationLock.ts).
 */
module LockProgress {
  import opened Prelude
  import opened LockDoc
  import opened LockProtocol
  import opened LockSafety
  import opened LockOutcome
  import opened LockSettlement

  /** The document is running and younger than the timeout at this clock sample. */
  predicate Young(doc: Option<Stored>, nowMs: int, timeout: nat) {
    doc.Some? && doc.value.lock.status.Running? && nowMs - doc.value.lock.startedAt < timeout
  }

  /** The store holds what was read: nothing, or the same revision. */
  predicate Fits(doc: Option<Stored>, read: Option<Stored>) {
    doc.Some? == read.Some? && (doc.Some? ==> doc.value.rev == read.value.rev)
  }

  /** The lock that `tryClaim` puts over what it read. */
  predicate IsClaim(lock: Lock, read: Option<Stored>, me: nat, nowMs: int) {
    && lock.status.Running? && lock.holder == Instance(me) && lock.startedAt == nowMs == lock.updatedAt && lock.error.None?
    && match read
       case None => lock.attempt == 1 && lock.history == []
       case Some(prior) =>
         && lock.attempt == prior.lock.attempt + 1
         && lock.history ==
            (if prior.lock.status.Running?
             then LastN(prior.lock.history + [Attempt(prior.lock.holder, prior.lock.startedAt, nowMs, TimedOut, None)], 10)
             else prior.lock.history)
  }

  /** The lock that settles `prior`. */
  predicate IsSettlement(lock: Lock, prior: Lock, outcome: Outcome, error: Option<string>, nowMs: int) {
    && lock.status == Settled(outcome) && lock.error == error && lock.updatedAt == nowMs
    && lock.holder == prior.holder && lock.startedAt == prior.startedAt && lock.attempt == prior.attempt
    && lock.history == LastN(prior.history + [Attempt(prior.holder, prior.startedAt, nowMs, Finished(outcome), error)], 10)
  }

  // ----- one step

  /** What a poll decides: done on a settled lock, back to claim on a missing or expired one, else sleep again. */
  lemma PollDecides(cfg: Config, s: State, step: Step)
    requires Enabled(s, step) && step.Advance? && step.io.Ok? && s.callers[step.i].pc.WaitGet?
    ensures var pc, nowMs, doc := Next(cfg, s, step).callers[step.i].pc, s.callers[step.i].pc.nowMs, s.doc;
            && (forall o, e :: pc == Returned(Waiter(o, e)) <==>
                  doc.Some? && doc.value.lock.status == Settled(o) && doc.value.lock.error == e)
            && (pc == ClaimStart <==>
                  doc.None? || (doc.value.lock.status.Running? && nowMs - doc.value.lock.startedAt >= cfg.timeout))
            && (pc == WaitSleep(step.at + cfg.poll) <==> Young(doc, nowMs, cfg.timeout))
    ensures Next(cfg, s, step).doc == s.doc && Next(cfg, s, step).events == s.events
    ensures Next(cfg, s, step).callers[step.i].runs == s.callers[step.i].runs
  {
  }

  /** What the read of a claim decides: wait for a young running lock, else claim over what was read. */
  lemma ClaimDecides(cfg: Config, s: State, step: Step)
    requires Enabled(s, step) && step.Advance? && step.io.Ok? && s.callers[step.i].pc.ClaimGet?
    ensures var pc, nowMs := Next(cfg, s, step).callers[step.i].pc, s.callers[step.i].pc.nowMs;
            && (pc == WaitSleep(step.at + cfg.poll) <==> Young(s.doc, nowMs, cfg.timeout))
            && (pc == ClaimPut(nowMs, s.doc) <==> !Young(s.doc, nowMs, cfg.timeout))
    ensures Next(cfg, s, step).doc == s.doc && Next(cfg, s, step).events == s.events
  {
  }

  /** A claim is committed exactly when its revision fits and the put reaches the store. */
  lemma ClaimCommits(cfg: Config, s: State, step: Step)
    requires Basic(cfg, s) && Enabled(s, step) && step.Advance? && s.callers[step.i].pc.ClaimPut?
    ensures var t, c := Next(cfg, s, step), s.callers[step.i];
            var nowMs, fits := c.pc.nowMs, Fits(s.doc, c.pc.existing);
            && (fits ==> s.doc == c.pc.existing)
            && (t.callers[step.i].pc.Claimed? <==> fits && step.io.Ok?)
            && (t.callers[step.i].pc.WaitSleep? <==> !fits && step.io.Ok?)
            && (if fits && !step.io.Fail?
                then t.doc.Some? && t.doc.value.rev == s.nextRev && IsClaim(t.doc.value.lock, s.doc, step.i, nowMs)
                     && t.events == s.events + [ClaimEvent(Instance(step.i), s.nextRev)]
                else t.doc == s.doc && t.events == s.events)
  {
    assert CallerOk(cfg, s, step.i);
  }

  /** What the read before a settlement decides: settle exactly a running lock of its own. */
  lemma SettleDecides(cfg: Config, s: State, step: Step)
    requires Enabled(s, step) && step.Advance? && s.callers[step.i].pc.SettleGet?
    ensures var pc, before := Next(cfg, s, step).callers[step.i].pc, s.callers[step.i].pc;
            if step.io.Ok? && s.doc.Some? && s.doc.value.lock.status.Running? && s.doc.value.lock.holder == Instance(step.i)
            then pc == SettlePut(before.outcome, before.error, before.nowMs, s.doc.value)
            else pc == Returned(Doer(before.outcome, before.error))
    ensures Next(cfg, s, step).doc == s.doc && Next(cfg, s, step).events == s.events
  {
  }

  /** A settlement is committed exactly when its revision fits and the put reaches the store. */
  lemma SettleCommits(cfg: Config, s: State, step: Step)
    requires Basic(cfg, s) && Enabled(s, step) && step.Advance? && s.callers[step.i].pc.SettlePut?
    ensures var t, pc := Next(cfg, s, step), s.callers[step.i].pc;
            var fits := Fits(s.doc, Some(pc.doc));
            && (fits ==> s.doc == Some(pc.doc))
            && t.callers[step.i].pc == Returned(Doer(pc.outcome, pc.error))
            && (if fits && !step.io.Fail?
                then t.doc.Some? && IsSettlement(t.doc.value.lock, s.doc.value.lock, pc.outcome, pc.error, pc.nowMs)
                     && t.events == s.events + [SettleEvent(DoerOf(step.i), s.token, pc.outcome, pc.error)]
                else t.doc == s.doc && t.events == s.events)
  {
    assert CallerOk(cfg, s, step.i);
  }

  /** How long a caller sleeps: the poll interval, or after k failures in a row the k-th backoff. */
  lemma DelaysExact(cfg: Config, s: State, step: Step)
    requires Outcomes(cfg, s) && Enabled(s, step) && step.Advance?
    ensures var c := Next(cfg, s, step).callers[step.i];
            && (c.pc.ClaimSleep? ==>
                  var k := Trailing(c.io, ClaimIo(false));
                  k > 0 && c.pc.until == step.at + Min(cfg.backoffCap, cfg.backoffBase * Pow2(k - 1)))
            && (c.pc.WaitSleep? ==>
                  var k := Trailing(c.io, PollIo(false));
                  c.pc.until == step.at + if k == 0 then cfg.poll else Min(cfg.backoffCap, cfg.backoffBase * Pow2(k - 1)))
  {
    hide Trailing, Pow2;
    var c := s.callers[step.i];
    assert StreakOk(cfg, c);
    StreakAppend(c.io, ClaimIo(true));
    StreakAppend(c.io, ClaimIo(false));
    StreakAppend(c.io, PollIo(true));
    StreakAppend(c.io, PollIo(false));
  }

  /** Every change of the document is logged. */
  lemma ChangesAreLogged(cfg: Config, s: State, step: Step)
    requires Enabled(s, step)
    ensures s.events <= Next(cfg, s, step).events
    ensures Next(cfg, s, step).events == s.events ==> Next(cfg, s, step).doc == s.doc && Next(cfg, s, step).token == s.token
  {
    hide Local, ArchiveRunningAttempt;
  }

  predicate IsOwn(step: Step, i: nat) {
    step.Advance? && step.i == i
  }

  /** A call that ended stays ended. */
  lemma {:induction false} EndedStays(cfg: Config, s: State, steps: seq<Step>, i: nat)
    requires Valid(cfg, s, steps) && i < |s.callers| && Final(s.callers[i].pc)
    ensures i < |Run(cfg, s, steps).callers| && Run(cfg, s, steps).callers[i] == s.callers[i]
    decreases |steps|
  {
    if steps != [] {
      hide Local;
      EndedStays(cfg, Next(cfg, s, steps[0]), steps[1..], i);
    }
  }

  // ----- a waiter joins a settlement

  /** Caller i polls successfully in the run, and up to then nothing is committed. */
  predicate PollsUndisturbed(cfg: Config, s: State, steps: seq<Step>, i: nat)
    requires Valid(cfg, s, steps)
    decreases |steps|
  {
    && steps != [] && i < |s.callers|
    && ((IsOwn(steps[0], i) && s.callers[i].pc.WaitGet? && steps[0].io.Ok?)
        || (Next(cfg, s, steps[0]).events == s.events && PollsUndisturbed(cfg, Next(cfg, s, steps[0]), steps[1..], i)))
  }

  /** While nothing is polled successfully, a waiting call waits, unless it is given up or dies. */
  lemma WaitsOn(cfg: Config, s: State, step: Step, i: nat)
    requires Enabled(s, step) && i < |s.callers| && Waiting(s.callers[i].pc)
    requires !(IsOwn(step, i) && s.callers[i].pc.WaitGet? && step.io.Ok?)
    ensures var c := Next(cfg, s, step).callers[i];
            (Waiting(c.pc) || c.pc.Rejected? || c.pc.Crashed?) && c.runs == s.callers[i].runs
  {
  }

  lemma {:induction false} NoPollAfterEnd(cfg: Config, s: State, steps: seq<Step>, i: nat)
    requires Valid(cfg, s, steps) && i < |s.callers| && Final(s.callers[i].pc)
    ensures !PollsUndisturbed(cfg, s, steps, i)
    decreases |steps|
  {
    if steps != [] {
      hide Local;
      NoPollAfterEnd(cfg, Next(cfg, s, steps[0]), steps[1..], i);
    }
  }

  lemma {:induction false} JoinsRun(cfg: Config, s: State, steps: seq<Step>, i: nat, o: Outcome)
    requires Valid(cfg, s, steps) && i < |s.callers| && Waiting(s.callers[i].pc)
    requires s.doc.Some? && s.doc.value.lock.status == Settled(o) && PollsUndisturbed(cfg, s, steps, i)
    ensures var t := Run(cfg, s, steps);
            && i < |t.callers| && t.callers[i].pc == Returned(Waiter(o, s.doc.value.lock.error))
            && t.callers[i].runs == s.callers[i].runs
    decreases |steps|
  {
    hide Local, Final;
    var m := Next(cfg, s, steps[0]);
    if IsOwn(steps[0], i) && s.callers[i].pc.WaitGet? && steps[0].io.Ok? {
      PollDecides(cfg, s, steps[0]);
      assert m.callers[i].pc == Returned(Waiter(o, s.doc.value.lock.error));
      IsEnd(m.callers[i].pc);
      EndedStays(cfg, m, steps[1..], i);
    } else {
      ChangesAreLogged(cfg, s, steps[0]);
      WaitsOn(cfg, s, steps[0], i);
      if !Waiting(m.callers[i].pc) {
        IsEnd(m.callers[i].pc);
        NoPollAfterEnd(cfg, m, steps[1..], i);
      }
      JoinsRun(cfg, m, steps[1..], i, o);
    }
  }

  lemma IsEnd(pc: Pc)
    ensures pc.Returned? || pc.Rejected? || pc.Crashed? ==> Final(pc)
  {
  }

  /**
   * A caller that is waiting while the lock is settled, and whose next successful poll meets no later
   * commit, ends as the waiter of that settlement, without ever having invoked `run`.
   */
  lemma WaiterJoins(cfg: Config, callers: nat, operators: nat, now: int, before: seq<Step>, steps: seq<Step>, i: nat, o: Outcome)
    requires Valid(cfg, Init(callers, operators, now), before)
    requires var s := Run(cfg, Init(callers, operators, now), before);
             && i < |s.callers| && Waiting(s.callers[i].pc) && s.doc.Some? && s.doc.value.lock.status == Settled(o)
             && Valid(cfg, s, steps) && PollsUndisturbed(cfg, s, steps, i)
    ensures var s := Run(cfg, Init(callers, operators, now), before);
            var t := Run(cfg, s, steps);
            i < |t.callers| && t.callers[i].pc == Returned(Waiter(o, s.doc.value.lock.error)) && t.callers[i].runs == 0
  {
    OutcomesRun(cfg, Init(callers, operators, now), before);
    var s := Run(cfg, Init(callers, operators, now), before);
    assert RunsOk(s.callers[i]);
    JoinsRun(cfg, s, steps, i, o);
  }

  // ----- a doer settles

  /** Caller i holds the lock before each step of the run, its own I/O succeeds, and it does not die. */
  predicate Undisturbed(cfg: Config, s: State, steps: seq<Step>, i: nat)
    requires Valid(cfg, s, steps)
    decreases |steps|
  {
    steps == [] ||
    (&& s.doc.Some? && s.doc.value.lock.status.Running? && s.doc.value.lock.holder == Instance(i)
     && (IsOwn(steps[0], i) ==> steps[0].io.Ok?) && !(steps[0].Crash? && steps[0].i == i)
     && Undisturbed(cfg, Next(cfg, s, steps[0]), steps[1..], i))
  }

  /** How the callback of caller i ended: at its first step of the run. */
  function EndOfRun(steps: seq<Step>, i: nat): RunEnd {
    if steps == [] then Done else if IsOwn(steps[0], i) then steps[0].run else EndOfRun(steps[1..], i)
  }

  function OutcomeOf(end: RunEnd): Outcome {
    if end.Done? then Complete else Failed
  }

  function ErrorOf(end: RunEnd): Option<string> {
    if end.Done? then None else Some(end.message)
  }

  /** As long as the holder keeps the lock, nobody else has changed it. */
  lemma HeldIsUnchanged(cfg: Config, s: State, step: Step, i: nat)
    requires Basic(cfg, s) && Enabled(s, step) && !IsOwn(step, i) && IsHolder(s, i) && IsHolder(Next(cfg, s, step), i)
    ensures Next(cfg, s, step).doc == s.doc && Next(cfg, s, step).events == s.events && Next(cfg, s, step).token == s.token
  {
    hide ArchiveRunningAttempt;
    if step.Advance? {
      assert CallerOk(cfg, s, step.i);
    } else if step.OperatorWrite? {
      assert OperatorOk(s, step.a);
    }
  }

  /** On its way from the end of `run()` to the put, with this outcome and error. */
  predicate SettlingWith(s: State, i: nat, o: Outcome, e: Option<string>)
    requires i < |s.callers|
  {
    match s.callers[i].pc
    case SettleStart(outcome, error) => outcome == o && error == e
    case SettleGet(outcome, error, _) => outcome == o && error == e
    case SettlePut(outcome, error, _, doc) => outcome == o && error == e && Some(doc) == s.doc
    case _ => false
  }

  ghost predicate Leaves(s: State, t: State, i: nat, o: Outcome, e: Option<string>) {
    && s.doc.Some? && t.doc.Some? && IsSettlement(t.doc.value.lock, s.doc.value.lock, o, e, t.doc.value.lock.updatedAt)
    && t.events == s.events + [SettleEvent(DoerOf(i), s.token, o, e)]
    && i < |t.callers| && t.callers[i].pc == Returned(Doer(o, e))
  }

  /** The last step of the run is the doer's own. */
  lemma {:induction false} SettlesRun(cfg: Config, s: State, steps: seq<Step>, i: nat, o: Outcome, e: Option<string>)
    requires Basic(cfg, s) && Valid(cfg, s, steps) && i < |s.callers| && Undisturbed(cfg, s, steps, i)
    requires SettlingWith(s, i, o, e) && i < |Run(cfg, s, steps).callers| && Final(Run(cfg, s, steps).callers[i].pc)
    ensures Leaves(s, Run(cfg, s, steps), i, o, e)
    decreases |steps|
  {
    assert steps != [];
    var m := Next(cfg, s, steps[0]);
    BasicNext(cfg, s, steps[0]);
    if IsOwn(steps[0], i) && s.callers[i].pc.SettlePut? {
      SettleCommits(cfg, s, steps[0]);
      assert steps[1..] == [];
    } else {
      OneMoreStep(cfg, s, steps, i, o, e);
      SettlesRun(cfg, m, steps[1..], i, o, e);
    }
  }

  lemma OneMoreStep(cfg: Config, s: State, steps: seq<Step>, i: nat, o: Outcome, e: Option<string>)
    requires Basic(cfg, s) && Valid(cfg, s, steps) && steps != [] && i < |s.callers| && Undisturbed(cfg, s, steps, i)
    requires SettlingWith(s, i, o, e) && !(IsOwn(steps[0], i) && s.callers[i].pc.SettlePut?)
    requires i < |Run(cfg, s, steps).callers| && Final(Run(cfg, s, steps).callers[i].pc)
    ensures var m := Next(cfg, s, steps[0]);
            i < |m.callers| && SettlingWith(m, i, o, e) && m.doc == s.doc && m.events == s.events && m.token == s.token
  {
    var m := Next(cfg, s, steps[0]);
    if !IsOwn(steps[0], i) {
      assert m.callers[i] == s.callers[i];
      assert steps[1..] != [];
      HeldIsUnchanged(cfg, s, steps[0], i);
    }
  }

  /** Up to the end of `run()` nobody else changes the lock either. */
  lemma {:induction false} RunsAndSettles(cfg: Config, s: State, steps: seq<Step>, i: nat)
    requires Basic(cfg, s) && Valid(cfg, s, steps) && i < |s.callers| && Undisturbed(cfg, s, steps, i)
    requires s.callers[i].pc.InRun? && i < |Run(cfg, s, steps).callers| && Final(Run(cfg, s, steps).callers[i].pc)
    ensures Leaves(s, Run(cfg, s, steps), i, OutcomeOf(EndOfRun(steps, i)), ErrorOf(EndOfRun(steps, i)))
    decreases |steps|
  {
    assert steps != [];
    var m := Next(cfg, s, steps[0]);
    BasicNext(cfg, s, steps[0]);
    if IsOwn(steps[0], i) {
      SettlesRun(cfg, m, steps[1..], i, OutcomeOf(steps[0].run), ErrorOf(steps[0].run));
    } else {
      assert m.callers[i] == s.callers[i];
      assert steps[1..] != [];
      HeldIsUnchanged(cfg, s, steps[0], i);
      RunsAndSettles(cfg, m, steps[1..], i);
    }
  }

  /**
   * A doer that holds the lock until it has put its settlement, and whose I/O succeeds, leaves it:
   * the log gains exactly one settlement, for its own claim, `complete` if the callback resolved and
   * `failed` with its message if it threw; and the stored document says so.
   */
  lemma DoerSettles(cfg: Config, callers: nat, operators: nat, now: int, before: seq<Step>, steps: seq<Step>, i: nat)
    requires Valid(cfg, Init(callers, operators, now), before)
    requires var s := Run(cfg, Init(callers, operators, now), before);
             && i < |s.callers| && s.callers[i].pc.InRun? && Valid(cfg, s, steps) && Undisturbed(cfg, s, steps, i)
             && var t := Run(cfg, s, steps); i < |t.callers| && Final(t.callers[i].pc)
    ensures var s := Run(cfg, Init(callers, operators, now), before);
            var t, end := Run(cfg, s, steps), EndOfRun(steps, i);
            var o, e := if end.Done? then Complete else Failed, if end.Done? then None else Some(end.message);
            && s.callers[i].claim.Some? && s.doc.Some? && t.doc.Some?
            && t.doc.value.lock.status == Settled(o) && t.doc.value.lock.error == e
            && IsSettlement(t.doc.value.lock, s.doc.value.lock, o, e, t.doc.value.lock.updatedAt)
            && t.events == s.events + [SettleEvent(DoerOf(i), s.callers[i].claim.value.token, o, e)]
            && t.callers[i].pc == Returned(Doer(o, e))
  {
    hide Local, Final;
    AuthorityRun(cfg, Init(callers, operators, now), before);
    var s := Run(cfg, Init(callers, operators, now), before);
    assert CallerAuthority(s, i);
    RunsAndSettles(cfg, s, steps, i);
    assert steps != [];
  }

  // ----- a claimant gets a free lock

  /** Until caller i has taken n steps, nothing is committed by anyone else, its I/O succeeds, and it does not die. */
  predicate AloneFor(cfg: Config, s: State, steps: seq<Step>, i: nat, n: nat)
    requires Valid(cfg, s, steps)
    decreases |steps|
  {
    if n == 0 then steps == []
    else
      && steps != [] && !(steps[0].Crash? && steps[0].i == i)
      && (if IsOwn(steps[0], i) then steps[0].io.Ok? else Next(cfg, s, steps[0]).events == s.events)
      && AloneFor(cfg, Next(cfg, s, steps[0]), steps[1..], i, if IsOwn(steps[0], i) then n - 1 else n)
  }

  lemma {:induction false} PutsRun(cfg: Config, s: State, steps: seq<Step>, i: nat)
    requires Basic(cfg, s) && Valid(cfg, s, steps) && i < |s.callers| && AloneFor(cfg, s, steps, i, 1)
    requires s.callers[i].pc.ClaimPut? && s.callers[i].pc.existing == s.doc
    ensures Gets(s, Run(cfg, s, steps), i, s.callers[i].pc.nowMs)
    decreases |steps|
  {
    var m := Next(cfg, s, steps[0]);
    BasicNext(cfg, s, steps[0]);
    if IsOwn(steps[0], i) {
      ClaimCommits(cfg, s, steps[0]);
    } else {
      ChangesAreLogged(cfg, s, steps[0]);
      assert m.callers[i] == s.callers[i];
      PutsRun(cfg, m, steps[1..], i);
    }
  }

  ghost predicate Gets(s: State, t: State, i: nat, nowMs: int) {
    && t.doc.Some? && IsClaim(t.doc.value.lock, s.doc, i, nowMs)
    && i < |t.callers| && t.callers[i].pc.Claimed? && t.callers[i].claim == Some(Claim(t.doc.value.rev, nowMs))
    && t.events == s.events + [ClaimEvent(Instance(i), t.doc.value.rev)]
  }

  lemma {:induction false} ReadsAndPuts(cfg: Config, s: State, steps: seq<Step>, i: nat)
    requires Basic(cfg, s) && Valid(cfg, s, steps) && i < |s.callers| && AloneFor(cfg, s, steps, i, 2)
    requires s.callers[i].pc.ClaimGet? && !Young(s.doc, s.callers[i].pc.nowMs, cfg.timeout)
    ensures Gets(s, Run(cfg, s, steps), i, s.callers[i].pc.nowMs)
    decreases |steps|
  {
    var m := Next(cfg, s, steps[0]);
    BasicNext(cfg, s, steps[0]);
    if IsOwn(steps[0], i) {
      ClaimDecides(cfg, s, steps[0]);
      PutsRun(cfg, m, steps[1..], i);
    } else {
      ChangesAreLogged(cfg, s, steps[0]);
      assert m.callers[i] == s.callers[i];
      ReadsAndPuts(cfg, m, steps[1..], i);
    }
  }

  /**
   * A claimant about to read a lock that is missing, settled (however it ended) or expired at its clock
   * sample, with nothing committed until it has put, gets the lock.
   */
  lemma ClaimantGetsFreeLock(cfg: Config, callers: nat, operators: nat, now: int, before: seq<Step>, steps: seq<Step>, i: nat)
    requires Valid(cfg, Init(callers, operators, now), before)
    requires var s := Run(cfg, Init(callers, operators, now), before);
             && i < |s.callers| && s.callers[i].pc.ClaimGet? && !Young(s.doc, s.callers[i].pc.nowMs, cfg.timeout)
             && Valid(cfg, s, steps) && AloneFor(cfg, s, steps, i, 2)
    ensures var s := Run(cfg, Init(callers, operators, now), before);
            var t := Run(cfg, s, steps);
            && t.doc.Some? && IsClaim(t.doc.value.lock, s.doc, i, s.callers[i].pc.nowMs)
            && i < |t.callers| && t.callers[i].pc.Claimed?
            && t.events == s.events + [ClaimEvent(Instance(i), t.doc.value.rev)]
  {
    AuthorityRun(cfg, Init(callers, operators, now), before);
    ReadsAndPuts(cfg, Run(cfg, Init(callers, operators, now), before), steps, i);
  }
}
