/**
 * Termination: with finitely many callers, no operator commands, no lost acknowledgements and
 * sleeps that take time, every `withStartupMigrationLock` call returns or is rejected.
 */
module LockTermination {
  import opened Prelude
  import opened LockDoc
  import opened LockProtocol
  import opened LockSafety
  import opened LockOutcome

  /** Every sleep lasts at least one time unit. */
  predicate SleepsAdvance(cfg: Config) {
    cfg.poll >= 1 && cfg.backoffBase >= 1 && cfg.backoffCap >= 1
  }

  lemma BackoffPositive(cfg: Config, e: nat)
    requires SleepsAdvance(cfg)
    ensures IoBackoff(e, cfg.backoffBase, cfg.backoffCap) >= 1
  {
    var p := Pow2(Max(0, e - 1));
    assert cfg.backoffBase * p >= 1 * p;
  }

  /** A caller's step, other than a put whose acknowledgement is lost. */
  predicate Tame(step: Step) {
    !ByOperator(step) && (step.Advance? ==> !step.io.LostAck?)
  }

  predicate AllTame(steps: seq<Step>) {
    forall k :: 0 <= k < |steps| ==> Tame(steps[k])
  }

  predicate Inv(cfg: Config, s: State) {
    Basic(cfg, s) && Outcomes(cfg, s)
  }

  lemma InvNext(cfg: Config, s: State, step: Step)
    requires Inv(cfg, s) && Enabled(s, step)
    ensures Inv(cfg, Next(cfg, s, step))
  {
    BasicNext(cfg, s, step);
    OutcomesNext(cfg, s, step);
  }

  // ----- the measure: unclaimed callers, running or settled, time to expiry, local work

  /** Not yet past the claim: this caller may still commit one. */
  predicate Active(pc: Pc) {
    Claiming(pc) || Waiting(pc)
  }

  function Left(cfg: Config, errors: nat): nat {
    Max(0, Budget(cfg) - errors)
  }

  function RankCap(cfg: Config): nat {
    7 * Budget(cfg) + 8
  }

  /** Work left for a caller past its claim. */
  function DoerRank(pc: Pc): nat {
    match pc
    case Claimed => 5
    case InRun => 4
    case SettleStart(_, _) => 3
    case SettleGet(_, _, _) => 2
    case SettlePut(_, _, _, _) => 1
    case _ => 0
  }

  /** Work left while the document can be claimed by whoever samples the clock now. */
  function OpenRank(cfg: Config, doc: Option<Stored>, c: Caller): nat {
    var claims := 4 * Left(cfg, c.claimErrors);
    var polls := 4 * Budget(cfg) + 4 + 3 * Left(cfg, c.pollErrors);
    match c.pc
    case ClaimPut(_, existing) => if Accepts(doc, existing) then claims + 1 else RankCap(cfg)
    case ClaimGet(nowMs) => if !IsLive(doc, nowMs, cfg.timeout) then claims + 2 else RankCap(cfg)
    case ClaimStart => claims + 3
    case ClaimSleep(_) => claims + 4
    case WaitGet(nowMs) => if !IsLive(doc, nowMs, cfg.timeout) then polls + 1 else RankCap(cfg)
    case WaitStart => polls + 2
    case WaitSleep(_) => polls + 3
    case _ => DoerRank(c.pc)
  }

  /** Work left before time must advance, while the document is running and unexpired. */
  function LiveRank(now: int, c: Caller): nat {
    match c.pc
    case ClaimSleep(until) => if until <= now then 4 else 0
    case ClaimStart => 3
    case ClaimGet(_) => 2
    case ClaimPut(_, _) => 1
    case WaitSleep(until) => if until <= now then 3 else 0
    case WaitStart => 2
    case WaitGet(_) => 1
    case _ => DoerRank(c.pc)
  }

  function Rank(cfg: Config, doc: Option<Stored>, now: int, c: Caller): nat {
    if IsLive(doc, now, cfg.timeout) then LiveRank(now, c) else OpenRank(cfg, doc, c)
  }

  predicate IsRunning(doc: Option<Stored>) {
    doc.Some? && doc.value.lock.status.Running?
  }

  function TimeLeft(cfg: Config, s: State): nat {
    if IsRunning(s.doc) then Max(0, s.doc.value.lock.startedAt + cfg.timeout - s.now) else 0
  }

  function Unclaimed(s: State): seq<nat> {
    seq(|s.callers|, i requires 0 <= i < |s.callers| => if Active(s.callers[i].pc) then 1 else 0)
  }

  function Ranks(cfg: Config, s: State): seq<nat> {
    seq(|s.callers|, i requires 0 <= i < |s.callers| => Rank(cfg, s.doc, s.now, s.callers[i]))
  }

  function Claims(s: State): nat {
    2 * Sum(Unclaimed(s)) + (if IsRunning(s.doc) then 1 else 0)
  }

  function Work(cfg: Config, s: State): nat {
    Sum(Ranks(cfg, s))
  }

  function WorkSpan(cfg: Config, s: State): nat {
    |s.callers| * RankCap(cfg) + 1
  }

  /** The pair (a, b) with b below the span, as one number. */
  function Mix(a: nat, b: nat, span: nat): nat {
    a * span + b
  }

  function Measure(cfg: Config, s: State): nat {
    Mix(Mix(Claims(s), TimeLeft(cfg, s), cfg.timeout + 1), Work(cfg, s), WorkSpan(cfg, s))
  }

  // ----- each tame step lowers it

  lemma OpenDrop(cfg: Config, me: nat, c: Caller, doc: Option<Stored>, rev: nat, now: int, at: int, io: Io, run: RunEnd)
    requires !Final(c.pc) && StreakOk(cfg, c) && !io.LostAck? && now <= at && !IsLive(doc, now, cfg.timeout)
    requires var eff := Local(cfg, me, c, doc, rev, at, io, run);
             eff.write.None? && (Active(eff.caller.pc) <==> Active(c.pc))
    ensures OpenRank(cfg, doc, Local(cfg, me, c, doc, rev, at, io, run).caller) < OpenRank(cfg, doc, c)
  {
    hide IoBackoff, Trailing;
    var d := Local(cfg, me, c, doc, rev, at, io, run).caller;
    if c.pc.ClaimGet? || c.pc.ClaimPut? {
      assert d == ClaimFailed(cfg, c, at) || d == StartWaiting(cfg, c, at) || (c.pc.ClaimGet? && d == c.(pc := ClaimPut(c.pc.nowMs, doc)));
    }
  }

  lemma LiveDrop(cfg: Config, me: nat, c: Caller, doc: Option<Stored>, rev: nat, now: int, io: Io, run: RunEnd)
    requires SleepsAdvance(cfg) && !Final(c.pc) && IsLive(doc, now, cfg.timeout)
    requires c.pc.ClaimGet? || c.pc.WaitGet? ==> c.pc.nowMs <= now
    requires c.pc.ClaimSleep? || c.pc.WaitSleep? ==> c.pc.until <= now
    requires Local(cfg, me, c, doc, rev, now, io, run).write.None?
    ensures LiveRank(now, Local(cfg, me, c, doc, rev, now, io, run).caller) < LiveRank(now, c)
  {
    BackoffPositive(cfg, c.claimErrors + 1);
    BackoffPositive(cfg, c.pollErrors + 1);
  }

  /** The caller that takes a step without a commit has less work left, unless time moved on. */
  lemma OwnRankDrops(cfg: Config, s: State, step: Step)
    requires SleepsAdvance(cfg) && Inv(cfg, s) && Enabled(s, step) && Tame(step)
    requires step.Advance? ==> EffectOf(cfg, s, step).write.None?
    requires var t := Next(cfg, s, step);
             && (Active(t.callers[step.i].pc) <==> Active(s.callers[step.i].pc))
             && TimeLeft(cfg, t) == TimeLeft(cfg, s)
    ensures Ranks(cfg, Next(cfg, s, step))[step.i] < Ranks(cfg, s)[step.i]
  {
    var t := Next(cfg, s, step);
    var c := s.callers[step.i];
    if step.Advance? {
      assert CallerOk(cfg, s, step.i);
      if IsLive(s.doc, s.now, cfg.timeout) {
        LiveDrop(cfg, step.i, c, s.doc, s.nextRev, s.now, step.io, step.run);
      } else {
        OpenDrop(cfg, step.i, c, s.doc, s.nextRev, s.now, step.at, step.io, step.run);
      }
    }
  }

  /** While neither the document nor the time left changes, nobody else has more work left. */
  lemma OtherRanksKept(cfg: Config, s: State, step: Step, j: nat)
    requires Enabled(s, step) && Tame(step) && j < |s.callers| && j != step.i
    requires Next(cfg, s, step).doc == s.doc && TimeLeft(cfg, Next(cfg, s, step)) == TimeLeft(cfg, s)
    ensures Ranks(cfg, Next(cfg, s, step))[j] == Ranks(cfg, s)[j]
  {
  }

  lemma UnclaimedNext(cfg: Config, s: State, step: Step)
    requires Enabled(s, step) && Tame(step)
    ensures var t := Next(cfg, s, step);
            && Sum(Unclaimed(t)) == Sum(Unclaimed(s)) - (if Active(s.callers[step.i].pc) && !Active(t.callers[step.i].pc) then 1 else 0)
  {
    var t := Next(cfg, s, step);
    assert !Active(s.callers[step.i].pc) ==> !Active(t.callers[step.i].pc);
    assert Unclaimed(t) == Unclaimed(s)[step.i := if Active(t.callers[step.i].pc) then 1 else 0];
    SumUpdate(Unclaimed(s), step.i, if Active(t.callers[step.i].pc) then 1 else 0);
  }

  /** A commit either retires a claimant or settles a running document. */
  lemma CommitLowersClaims(cfg: Config, s: State, step: Step)
    requires Inv(cfg, s) && Enabled(s, step) && Tame(step) && step.Advance?
    requires EffectOf(cfg, s, step).write.Some?
    ensures Claims(Next(cfg, s, step)) < Claims(s)
  {
    assert CallerOk(cfg, s, step.i);
    UnclaimedNext(cfg, s, step);
  }

  /** Every tame step lowers the triple (claims to come, time to expiry, local work) lexicographically. */
  lemma StepLowers(cfg: Config, s: State, step: Step)
    requires SleepsAdvance(cfg) && Inv(cfg, s) && Enabled(s, step) && Tame(step)
    ensures var t := Next(cfg, s, step);
            || Claims(t) < Claims(s)
            || (Claims(t) == Claims(s) && TimeLeft(cfg, t) < TimeLeft(cfg, s))
            || (Claims(t) == Claims(s) && TimeLeft(cfg, t) == TimeLeft(cfg, s) && Work(cfg, t) < Work(cfg, s))
  {
    var t := Next(cfg, s, step);
    UnclaimedNext(cfg, s, step);
    if step.Advance? && EffectOf(cfg, s, step).write.Some? {
      CommitLowersClaims(cfg, s, step);
    } else if Claims(t) == Claims(s) && TimeLeft(cfg, t) == TimeLeft(cfg, s) {
      OwnRankDrops(cfg, s, step);
      forall j | 0 <= j < |s.callers| && j != step.i {
        OtherRanksKept(cfg, s, step, j);
      }
      SumMonotone(Ranks(cfg, t), Ranks(cfg, s));
    }
  }

  /** Lexicographic descent is descent of the mixed number. */
  lemma MixDrops(a: nat, b: nat, a': nat, b': nat, span: nat)
    requires b' < span
    requires a' < a || (a' == a && b' < b)
    ensures Mix(a', b', span) < Mix(a, b, span)
  {
    if a' < a {
      assert a * span >= (a' + 1) * span == a' * span + span;
    }
  }

  lemma RankBound(cfg: Config, doc: Option<Stored>, now: int, c: Caller)
    ensures Rank(cfg, doc, now, c) <= RankCap(cfg)
  {
  }

  lemma MeasureDrops(cfg: Config, s: State, step: Step)
    requires SleepsAdvance(cfg) && Inv(cfg, s) && Enabled(s, step) && Tame(step)
    ensures Measure(cfg, Next(cfg, s, step)) < Measure(cfg, s)
  {
    var t := Next(cfg, s, step);
    StepLowers(cfg, s, step);
    InvNext(cfg, s, step);
    assert TimeLeft(cfg, t) <= cfg.timeout;
    forall i | 0 <= i < |Ranks(cfg, t)|
      ensures Ranks(cfg, t)[i] <= RankCap(cfg)
    {
      RankBound(cfg, t.doc, t.now, t.callers[i]);
    }
    SumBound(Ranks(cfg, t), RankCap(cfg));
    var high, high' := Mix(Claims(s), TimeLeft(cfg, s), cfg.timeout + 1), Mix(Claims(t), TimeLeft(cfg, t), cfg.timeout + 1);
    if Claims(t) < Claims(s) || TimeLeft(cfg, t) < TimeLeft(cfg, s) {
      MixDrops(Claims(s), TimeLeft(cfg, s), Claims(t), TimeLeft(cfg, t), cfg.timeout + 1);
    }
    MixDrops(high, Work(cfg, s), high', Work(cfg, t), WorkSpan(cfg, s));
  }

  lemma {:induction false} RunLowers(cfg: Config, s: State, steps: seq<Step>)
    requires SleepsAdvance(cfg) && Inv(cfg, s) && Valid(cfg, s, steps) && AllTame(steps)
    ensures Inv(cfg, Run(cfg, s, steps))
    ensures |steps| + Measure(cfg, Run(cfg, s, steps)) <= Measure(cfg, s)
    decreases |steps|
  {
    if steps != [] {
      assert Tame(steps[0]);
      MeasureDrops(cfg, s, steps[0]);
      InvNext(cfg, s, steps[0]);
      RunLowers(cfg, Next(cfg, s, steps[0]), steps[1..]);
    }
  }

  lemma InitMeasure(cfg: Config, callers: nat, operators: nat, now: int)
    ensures Inv(cfg, Init(callers, operators, now))
    ensures Measure(cfg, Init(callers, operators, now)) <=
            (2 * callers * (cfg.timeout + 1)) * (callers * RankCap(cfg) + 1) + callers * RankCap(cfg)
  {
    var s := Init(callers, operators, now);
    SumBound(Unclaimed(s), 1);
    forall i | 0 <= i < |Ranks(cfg, s)|
      ensures Ranks(cfg, s)[i] <= RankCap(cfg)
    {
      RankBound(cfg, s.doc, s.now, s.callers[i]);
    }
    SumBound(Ranks(cfg, s), RankCap(cfg));
    Scale(Claims(s), 2 * callers, cfg.timeout + 1, WorkSpan(cfg, s));
  }

  lemma Scale(a: nat, b: nat, x: nat, y: nat)
    requires a <= b
    ensures a * x * y <= b * x * y
  {
    assert a * x <= b * x;
    assert (a * x) * y <= (b * x) * y;
  }

  // ----- the theorem

  /** The next step of caller i, with the store answering and `run()` ending. */
  function NextStepOf(s: State, i: nat): Step
    requires i < |s.callers|
  {
    var pc := s.callers[i].pc;
    Advance(i, if pc.ClaimSleep? || pc.WaitSleep? then Max(s.now, pc.until) else s.now, Ok, Done)
  }

  /**
   * A tame run takes at most an explicit number of steps, and until every call has returned, been
   * rejected or died, some caller can step. So whatever the schedule, and whatever I/O fails,
   * every call ends.
   */
  lemma EveryCallEnds(cfg: Config, callers: nat, operators: nat, now: int, steps: seq<Step>)
    requires SleepsAdvance(cfg)
    requires Valid(cfg, Init(callers, operators, now), steps) && AllTame(steps)
    ensures |steps| <= (2 * callers * (cfg.timeout + 1)) * (callers * RankCap(cfg) + 1) + callers * RankCap(cfg)
    ensures var s := Run(cfg, Init(callers, operators, now), steps);
            forall i :: 0 <= i < |s.callers| && !Final(s.callers[i].pc) ==>
              exists step :: Enabled(s, step) && Tame(step) && step.Advance? && step.i == i
  {
    InitMeasure(cfg, callers, operators, now);
    RunLowers(cfg, Init(callers, operators, now), steps);
    var s := Run(cfg, Init(callers, operators, now), steps);
    forall i | 0 <= i < |s.callers| && !Final(s.callers[i].pc)
      ensures exists step :: Enabled(s, step) && Tame(step) && step.Advance? && step.i == i
    {
      assert Enabled(s, NextStepOf(s, i));
    }
  }
}
