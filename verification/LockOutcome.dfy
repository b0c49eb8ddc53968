/** What the result of a `withStartupMigrationLock` call says about what happened. */
module LockOutcome {
  import opened Prelude
  import opened LockDoc
  import opened LockProtocol
  import opened LockSafety

  /** How many events at the end of the record equal `e`. */
  function Trailing(io: seq<IoEvent>, e: IoEvent): nat {
    if io == [] || io[|io| - 1] != e then 0 else 1 + Trailing(io[..|io| - 1], e)
  }

  lemma TrailingAppend(io: seq<IoEvent>, e: IoEvent, last: IoEvent)
    ensures Trailing(io + [last], e) == if last == e then 1 + Trailing(io, e) else 0
  {
    assert (io + [last])[..|io|] == io;
  }

  /** Failures after which a streak gives up: `maxIoErrors`, but never fewer than one. */
  function Budget(cfg: Config): nat {
    Max(1, cfg.maxIoErrors)
  }

  /** Some committed settlement had this outcome and error. */
  predicate WasSettled(events: seq<Event>, outcome: Outcome, error: Option<string>) {
    exists k :: 0 <= k < |events| && events[k].SettleEvent? && events[k].outcome == outcome && events[k].error == error
  }

  lemma WasSettledGrows(events: seq<Event>, more: seq<Event>, outcome: Outcome, error: Option<string>)
    requires WasSettled(events, outcome, error)
    ensures WasSettled(events + more, outcome, error)
  {
    var k :| 0 <= k < |events| && events[k].SettleEvent? && events[k].outcome == outcome && events[k].error == error;
    assert (events + more)[k] == events[k];
  }

  /** The failure streaks of a caller agree with its counters and stay within the budget until it gives up. */
  predicate StreakOk(cfg: Config, c: Caller) {
    var claims, polls := Trailing(c.io, ClaimIo(false)), Trailing(c.io, PollIo(false));
    && (Claiming(c.pc) ==> c.claimErrors == claims && polls == 0)
    && (Waiting(c.pc) ==> c.pollErrors == polls && claims == 0 && c.claimErrors == 0)
    && (c.pc.Rejected? ==> Max(claims, polls) == Budget(cfg))
    && (!c.pc.Rejected? ==> claims < Budget(cfg) && polls < Budget(cfg))
  }

  /** How often `run` was invoked, by where the caller is. */
  predicate RunsOk(c: Caller) {
    && (Claiming(c.pc) || Waiting(c.pc) || c.pc.Claimed? || c.pc.Rejected? ==> c.runs == 0)
    && (c.pc.InRun? || Settling(c.pc) ==> c.runs == 1)
    && (c.pc.Returned? ==> c.runs == if c.pc.result.Doer? then 1 else 0)
    && c.runs <= 1
  }

  predicate ResultOk(s: State, c: Caller) {
    c.pc.Returned? && c.pc.result.Waiter? ==> WasSettled(s.events, c.pc.result.outcome, c.pc.result.error)
  }

  predicate Outcomes(cfg: Config, s: State) {
    && (s.doc.Some? && s.doc.value.lock.status.Settled? ==>
          WasSettled(s.events, s.doc.value.lock.status.outcome, s.doc.value.lock.error))
    && (forall i :: 0 <= i < |s.callers| ==>
          StreakOk(cfg, s.callers[i]) && RunsOk(s.callers[i]) && ResultOk(s, s.callers[i]))
  }

  /** The streaks after one more event. */
  lemma StreakAppend(io: seq<IoEvent>, last: IoEvent)
    ensures Trailing(io + [last], ClaimIo(false)) == if last == ClaimIo(false) then 1 + Trailing(io, ClaimIo(false)) else 0
    ensures Trailing(io + [last], PollIo(false)) == if last == PollIo(false) then 1 + Trailing(io, PollIo(false)) else 0
  {
    TrailingAppend(io, ClaimIo(false), last);
    TrailingAppend(io, PollIo(false), last);
  }

  lemma StreakClaiming(cfg: Config, c: Caller, at: int, rev: nat, startedAt: int)
    requires Claiming(c.pc) && StreakOk(cfg, c)
    ensures StreakOk(cfg, ClaimFailed(cfg, c, at))
    ensures StreakOk(cfg, StartWaiting(cfg, c, at))
    ensures StreakOk(cfg, ClaimWon(c, rev, startedAt))
  {
    StreakAppend(c.io, ClaimIo(true));
    StreakAppend(c.io, ClaimIo(false));
  }

  lemma StreakPolling(cfg: Config, c: Caller, doc: Option<Stored>, nowMs: int, at: int)
    requires Waiting(c.pc) && StreakOk(cfg, c)
    ensures StreakOk(cfg, PollFailed(cfg, c, at))
    ensures StreakOk(cfg, Polled(cfg, c, doc, nowMs, at))
  {
    StreakAppend(c.io, PollIo(true));
    StreakAppend(c.io, PollIo(false));
  }

  lemma StreakLocal(cfg: Config, me: nat, c: Caller, doc: Option<Stored>, rev: nat, at: int, io: Io, run: RunEnd)
    requires !Final(c.pc) && StreakOk(cfg, c)
    ensures StreakOk(cfg, Local(cfg, me, c, doc, rev, at, io, run).caller)
  {
    hide IoBackoff, Trailing;
    var d := Local(cfg, me, c, doc, rev, at, io, run).caller;
    if c.pc.ClaimGet? {
      StreakClaiming(cfg, c, at, rev, c.pc.nowMs);
      assert d == ClaimFailed(cfg, c, at) || d == StartWaiting(cfg, c, at) || d == c.(pc := ClaimPut(c.pc.nowMs, doc));
    } else if c.pc.ClaimPut? {
      StreakClaiming(cfg, c, at, rev, c.pc.nowMs);
      assert d == ClaimFailed(cfg, c, at) || d == StartWaiting(cfg, c, at) || d == ClaimWon(c, rev, c.pc.nowMs);
    } else if c.pc.WaitGet? {
      StreakPolling(cfg, c, doc, c.pc.nowMs, at);
      assert d == PollFailed(cfg, c, at) || d == Polled(cfg, c, doc, c.pc.nowMs, at);
    } else {
      assert d == c.(pc := d.pc, runs := d.runs);
    }
  }

  lemma RunsLocal(cfg: Config, me: nat, c: Caller, doc: Option<Stored>, rev: nat, at: int, io: Io, run: RunEnd)
    requires !Final(c.pc) && RunsOk(c)
    ensures RunsOk(Local(cfg, me, c, doc, rev, at, io, run).caller)
  {
  }

  /** Commits only add events, and a new settled document comes with its event. */
  lemma DocSettledNext(cfg: Config, s: State, step: Step)
    requires Basic(cfg, s) && Outcomes(cfg, s) && Enabled(s, step)
    ensures var t := Next(cfg, s, step);
            && s.events <= t.events
            && (t.doc.Some? && t.doc.value.lock.status.Settled? ==>
                  WasSettled(t.events, t.doc.value.lock.status.outcome, t.doc.value.lock.error))
  {
    var t := Next(cfg, s, step);
    if step.Advance? {
      assert CallerOk(cfg, s, step.i);
    } else if step.OperatorWrite? {
      assert OperatorOk(s, step.a);
    }
    if t.events != s.events && t.events[|s.events|].SettleEvent? {
      assert t.doc.Some? ==> WasSettled(t.events, t.events[|s.events|].outcome, t.events[|s.events|].error);
    }
  }

  /** A call returns as a waiter only on a settled document it just read. */
  lemma WaiterSaw(cfg: Config, me: nat, c: Caller, doc: Option<Stored>, rev: nat, at: int, io: Io, run: RunEnd)
    requires !Final(c.pc)
    ensures var eff := Local(cfg, me, c, doc, rev, at, io, run);
            eff.caller.pc.Returned? && eff.caller.pc.result.Waiter? ==>
              && eff.write.None? && doc.Some?
              && doc.value.lock.status == Settled(eff.caller.pc.result.outcome)
              && doc.value.lock.error == eff.caller.pc.result.error
  {
  }

  lemma ResultNext(cfg: Config, s: State, step: Step, i: nat)
    requires Basic(cfg, s) && Outcomes(cfg, s) && Enabled(s, step) && i < |s.callers|
    ensures ResultOk(Next(cfg, s, step), Next(cfg, s, step).callers[i])
  {
    var t := Next(cfg, s, step);
    if step.Advance? && step.i == i {
      WaiterSaw(cfg, i, s.callers[i], s.doc, s.nextRev, step.at, step.io, step.run);
    } else {
      DocSettledNext(cfg, s, step);
      var c := s.callers[i];
      if c.pc.Returned? && c.pc.result.Waiter? {
        WasSettledGrows(s.events, t.events[|s.events|..], c.pc.result.outcome, c.pc.result.error);
        assert t.events == s.events + t.events[|s.events|..];
      }
    }
  }

  lemma RecordNext(cfg: Config, s: State, step: Step, i: nat)
    requires Outcomes(cfg, s) && Enabled(s, step) && i < |s.callers|
    ensures StreakOk(cfg, Next(cfg, s, step).callers[i]) && RunsOk(Next(cfg, s, step).callers[i])
  {
    if step.Advance? && step.i == i {
      StreakLocal(cfg, i, s.callers[i], s.doc, s.nextRev, step.at, step.io, step.run);
      RunsLocal(cfg, i, s.callers[i], s.doc, s.nextRev, step.at, step.io, step.run);
    }
  }

  lemma OutcomesNext(cfg: Config, s: State, step: Step)
    requires Basic(cfg, s) && Outcomes(cfg, s) && Enabled(s, step)
    ensures Outcomes(cfg, Next(cfg, s, step))
  {
    DocSettledNext(cfg, s, step);
    forall i | 0 <= i < |s.callers|
      ensures StreakOk(cfg, Next(cfg, s, step).callers[i]) && RunsOk(Next(cfg, s, step).callers[i])
      ensures ResultOk(Next(cfg, s, step), Next(cfg, s, step).callers[i])
    {
      ResultNext(cfg, s, step, i);
      RecordNext(cfg, s, step, i);
    }
  }

  lemma {:induction false} OutcomesRun(cfg: Config, s: State, steps: seq<Step>)
    requires Basic(cfg, s) && Outcomes(cfg, s) && Valid(cfg, s, steps)
    ensures Outcomes(cfg, Run(cfg, s, steps))
    decreases |steps|
  {
    if steps != [] {
      BasicNext(cfg, s, steps[0]);
      OutcomesNext(cfg, s, steps[0]);
      OutcomesRun(cfg, Next(cfg, s, steps[0]), steps[1..]);
    }
  }

  /**
   * Over every interleaving, operator commands included: a doer result means `run` was invoked
   * exactly once; a waiter result means it never was, and some committed settlement had that
   * outcome; and a call is rejected exactly when its latest claim or poll failures form an
   * unbroken streak as long as the budget.
   */
  lemma CallerOutcome(cfg: Config, callers: nat, operators: nat, now: int, steps: seq<Step>, i: nat)
    requires Valid(cfg, Init(callers, operators, now), steps) && i < |Run(cfg, Init(callers, operators, now), steps).callers|
    ensures var s := Run(cfg, Init(callers, operators, now), steps);
            var c := s.callers[i];
            && (c.pc.Returned? && c.pc.result.Doer? ==> c.runs == 1)
            && (c.pc.Returned? && c.pc.result.Waiter? ==>
                  c.runs == 0 && WasSettled(s.events, c.pc.result.outcome, c.pc.result.error))
            && (c.pc.Rejected? <==>
                  Max(Trailing(c.io, ClaimIo(false)), Trailing(c.io, PollIo(false))) >= Budget(cfg))
            && (c.pc.Rejected? ==> c.runs == 0)
  {
    OutcomesRun(cfg, Init(callers, operators, now), steps);
  }

  // ----- what resets a streak

  /**
   * A successful poll read always resets its streak. A successful claim read does so exactly when it
   * finds a live lock; otherwise the put that follows still counts with the failures before the read.
   */
  lemma ReadResetsExactly(cfg: Config, me: nat, c: Caller, doc: Option<Stored>, rev: nat, at: int, run: RunEnd)
    requires c.pc.ClaimGet? || c.pc.WaitGet?
    ensures var d := Local(cfg, me, c, doc, rev, at, Ok, run).caller;
            && (c.pc.WaitGet? ==> d.pollErrors == 0 && Trailing(d.io, PollIo(false)) == 0)
            && (c.pc.ClaimGet? && IsLive(doc, c.pc.nowMs, cfg.timeout) ==>
                  d.claimErrors == 0 && Trailing(d.io, ClaimIo(false)) == 0)
            && (c.pc.ClaimGet? && !IsLive(doc, c.pc.nowMs, cfg.timeout) ==>
                  d.claimErrors == c.claimErrors && d.io == c.io && d.pc.ClaimPut?)
  {
    StreakAppend(c.io, ClaimIo(true));
    StreakAppend(c.io, PollIo(true));
  }

  /** Every `get` of the lock in the run succeeds. */
  predicate ReadsSucceed(cfg: Config, s: State, steps: seq<Step>)
    requires Valid(cfg, s, steps)
    decreases |steps|
  {
    steps == [] || (ReadSucceeds(s, steps[0]) && ReadsSucceed(cfg, Next(cfg, s, steps[0]), steps[1..]))
  }

  predicate ReadSucceeds(s: State, step: Step)
    requires Enabled(s, step)
  {
    step.Advance? && (var pc := s.callers[step.i].pc; pc.ClaimGet? || pc.SettleGet? || pc.WaitGet?) ==> step.io.Ok?
  }

  lemma ReadsStep(cfg: Config, s: State, step: Step, rest: seq<Step>)
    requires Enabled(s, step) && ReadSucceeds(s, step) && Valid(cfg, Next(cfg, s, step), rest)
    requires ReadsSucceed(cfg, Next(cfg, s, step), rest)
    ensures Valid(cfg, s, [step] + rest) && ReadsSucceed(cfg, s, [step] + rest)
    ensures Run(cfg, s, [step] + rest) == Run(cfg, Next(cfg, s, step), rest)
  {
    RunStep(cfg, s, step, rest);
    assert ([step] + rest)[1..] == rest;
  }

  /** From a claim about to start on no document: reads that succeed and puts that fail, until the budget is spent. */
  lemma {:induction false} FailingPuts(cfg: Config, s: State) returns (steps: seq<Step>)
    requires |s.callers| == 1 && s.callers[0].pc.ClaimStart? && s.doc.None? && s.callers[0].claimErrors < Budget(cfg)
    ensures Valid(cfg, s, steps) && ReadsSucceed(cfg, s, steps)
    ensures |Run(cfg, s, steps).callers| == 1 && Run(cfg, s, steps).callers[0].pc.Rejected?
    decreases Budget(cfg) - s.callers[0].claimErrors
  {
    var ok, fail := Advance(0, s.now, Ok, Done), Advance(0, s.now, Fail, Done);
    var s1 := Next(cfg, s, ok);
    var s2 := Next(cfg, s1, ok);
    var s3 := Next(cfg, s2, fail);
    steps := [];
    if !s3.callers[0].pc.Rejected? {
      var wake := Advance(0, Max(s.now, s3.callers[0].pc.until), Ok, Done);
      steps := FailingPuts(cfg, Next(cfg, s3, wake));
      ReadsStep(cfg, s3, wake, steps);
      steps := [wake] + steps;
    }
    ReadsStep(cfg, s2, fail, steps);
    ReadsStep(cfg, s1, ok, [fail] + steps);
    ReadsStep(cfg, s, ok, [ok] + ([fail] + steps));
    steps := [ok] + ([ok] + ([fail] + steps));
  }

  /**
   * Against the documentation, then: whatever the budget, there is a run in which every read succeeds
   * and the call is still rejected, its trailing claim failures having reached the budget.
   */
  lemma SuccessfulReadsDoNotReset(cfg: Config) returns (steps: seq<Step>)
    ensures Valid(cfg, Init(1, 0, 0), steps) && ReadsSucceed(cfg, Init(1, 0, 0), steps)
    ensures var s := Run(cfg, Init(1, 0, 0), steps);
            && |s.callers| == 1 && s.callers[0].pc.Rejected?
            && Max(Trailing(s.callers[0].io, ClaimIo(false)), Trailing(s.callers[0].io, PollIo(false))) >= Budget(cfg)
  {
    steps := FailingPuts(cfg, Init(1, 0, 0));
    CallerOutcome(cfg, 1, 0, 0, steps, 0);
  }
}
