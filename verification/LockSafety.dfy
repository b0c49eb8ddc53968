/** Exclusion: at most one caller does unexpired work, and it is the one the document names. */
module LockSafety {
  import opened Prelude
  import opened LockDoc
  import opened LockProtocol

  // ----- what every step keeps, operator commands included

  /** A revision identifies a document: a snapshot with the stored revision is the stored document. */
  predicate SnapshotOk(s: State, read: Option<Stored>) {
    read.Some? ==>
      && read.value.rev < s.nextRev
      && (s.doc.Some? && s.doc.value.rev == read.value.rev ==> s.doc == read)
  }

  predicate CallerOk(cfg: Config, s: State, i: nat)
    requires i < |s.callers|
  {
    match s.callers[i].pc
    case ClaimGet(nowMs) => nowMs <= s.now
    case ClaimPut(nowMs, existing) =>
      nowMs <= s.now && SnapshotOk(s, existing) && !IsLive(existing, nowMs, cfg.timeout)
    case SettlePut(_, _, _, doc) =>
      SnapshotOk(s, Some(doc)) && doc.lock.holder == Instance(i) && doc.lock.status.Running?
    case WaitGet(nowMs) => nowMs <= s.now
    case _ => true
  }

  predicate OperatorOk(s: State, a: nat)
    requires a < |s.operators|
  {
    match s.operators[a]
    case Idle => true
    case PendingPut(before, write) =>
      && SnapshotOk(s, before)
      && write.lock.startedAt <= s.now
      && (match write
          case NewClaim(lock, _) => lock.holder == Operator(a) && lock.status.Running?
          case Settlement(lock, _, settler, outcome) =>
            && settler.OperatorTool? && lock.status == Settled(outcome)
            && before.Some? && lock.holder == before.value.lock.holder)
    case PendingRemove(removing) => SnapshotOk(s, Some(removing))
  }

  predicate DocOk(s: State) {
    s.doc.Some? ==> s.token <= s.doc.value.rev < s.nextRev && s.doc.value.lock.startedAt <= s.now
  }

  predicate Basic(cfg: Config, s: State) {
    && DocOk(s)
    && (forall i :: 0 <= i < |s.callers| ==> CallerOk(cfg, s, i))
    && (forall a :: 0 <= a < |s.operators| ==> OperatorOk(s, a))
  }

  /** A commit or removal leaves every other snapshot sound. */
  lemma SnapshotKept(cfg: Config, s: State, step: Step, read: Option<Stored>)
    requires Enabled(s, step) && SnapshotOk(s, read) && DocOk(s)
    ensures SnapshotOk(Next(cfg, s, step), read)
  {
  }

  lemma BasicAdvance(cfg: Config, s: State, step: Step)
    requires Basic(cfg, s) && Enabled(s, step) && step.Advance?
    ensures CallerOk(cfg, Next(cfg, s, step), step.i) && DocOk(Next(cfg, s, step))
  {
    assert CallerOk(cfg, s, step.i);
  }

  lemma BasicOperator(cfg: Config, s: State, step: Step)
    requires Basic(cfg, s) && Enabled(s, step) && ByOperator(step)
    ensures OperatorOk(Next(cfg, s, step), step.a) && DocOk(Next(cfg, s, step))
  {
    assert OperatorOk(s, step.a);
  }

  lemma CallersKept(cfg: Config, s: State, step: Step, i: nat)
    requires Basic(cfg, s) && Enabled(s, step) && i < |s.callers|
    ensures CallerOk(cfg, Next(cfg, s, step), i)
  {
    hide Local, OperatorPlan;
    if step.Advance? && step.i == i {
      BasicAdvance(cfg, s, step);
    } else {
      assert CallerOk(cfg, s, i);
      match s.callers[i].pc
      case ClaimPut(_, existing) => SnapshotKept(cfg, s, step, existing);
      case SettlePut(_, _, _, doc) => SnapshotKept(cfg, s, step, Some(doc));
      case _ =>
    }
  }

  lemma OperatorsKept(cfg: Config, s: State, step: Step, a: nat)
    requires Basic(cfg, s) && Enabled(s, step) && a < |s.operators|
    ensures OperatorOk(Next(cfg, s, step), a)
  {
    if ByOperator(step) && step.a == a {
      BasicOperator(cfg, s, step);
    } else {
      assert OperatorOk(s, a);
      match s.operators[a]
      case PendingPut(before, _) => SnapshotKept(cfg, s, step, before);
      case PendingRemove(removing) => SnapshotKept(cfg, s, step, Some(removing));
      case Idle =>
    }
  }

  lemma BasicNext(cfg: Config, s: State, step: Step)
    requires Basic(cfg, s) && Enabled(s, step)
    ensures Basic(cfg, Next(cfg, s, step))
  {
    if step.Advance? {
      BasicAdvance(cfg, s, step);
    } else if ByOperator(step) {
      BasicOperator(cfg, s, step);
    }
    forall i | 0 <= i < |s.callers|
      ensures CallerOk(cfg, Next(cfg, s, step), i)
    {
      CallersKept(cfg, s, step, i);
    }
    forall a | 0 <= a < |s.operators|
      ensures OperatorOk(Next(cfg, s, step), a)
    {
      OperatorsKept(cfg, s, step, a);
    }
  }

  // ----- exclusion

  /** Caller i's claim is too young to be stolen. */
  predicate Unexpired(cfg: Config, s: State, i: nat)
    requires i < |s.callers|
  {
    s.callers[i].claim.Some? && s.now - s.callers[i].claim.value.startedAt < cfg.timeout
  }

  /** The stored document is the very one caller i's claim wrote. */
  predicate HoldsOwnClaim(s: State, i: nat)
    requires i < |s.callers|
  {
    && IsHolder(s, i)
    && s.callers[i].claim == Some(Claim(s.doc.value.rev, s.doc.value.lock.startedAt))
  }

  predicate Excluded(cfg: Config, s: State) {
    forall i :: 0 <= i < |s.callers| && Working(s.callers[i].pc) ==>
      s.callers[i].claim.Some? && (Unexpired(cfg, s, i) ==> HoldsOwnClaim(s, i))
  }

  /** The caller that steps: it works only under the claim it just won, or as it did before. */
  lemma ExcludedOwn(cfg: Config, s: State, step: Step)
    requires Basic(cfg, s) && Excluded(cfg, s) && Enabled(s, step) && step.Advance?
    ensures var t, i := Next(cfg, s, step), step.i;
            Working(t.callers[i].pc) ==> t.callers[i].claim.Some? && (Unexpired(cfg, t, i) ==> HoldsOwnClaim(t, i))
  {
    hide ArchiveRunningAttempt, SettleOver, IoBackoff;
    assert CallerOk(cfg, s, step.i);
  }

  /** The others: a claim or a settlement never replaces the document of an unexpired worker. */
  lemma ExcludedOther(cfg: Config, s: State, step: Step, i: nat)
    requires Basic(cfg, s) && Excluded(cfg, s) && Enabled(s, step) && step.Advance? && i < |s.callers| && i != step.i
    ensures var t := Next(cfg, s, step);
            Working(t.callers[i].pc) ==> t.callers[i].claim.Some? && (Unexpired(cfg, t, i) ==> HoldsOwnClaim(t, i))
  {
    hide ArchiveRunningAttempt, ClaimOver, SettleOver, IoBackoff;
    assert CallerOk(cfg, s, step.i);
  }

  lemma ExcludedNext(cfg: Config, s: State, step: Step)
    requires Basic(cfg, s) && Excluded(cfg, s) && Enabled(s, step) && !ByOperator(step)
    ensures Excluded(cfg, Next(cfg, s, step))
  {
    if step.Advance? {
      hide Next, HoldsOwnClaim, Unexpired;
      forall i | 0 <= i < |s.callers|
        ensures var t := Next(cfg, s, step);
                Working(t.callers[i].pc) ==> t.callers[i].claim.Some? && (Unexpired(cfg, t, i) ==> HoldsOwnClaim(t, i))
      {
        if i == step.i {
          ExcludedOwn(cfg, s, step);
        } else {
          ExcludedOther(cfg, s, step, i);
        }
      }
    }
  }

  // ----- operators

  /** The step leaves the document alone, or nobody is at work under an unexpired claim. */
  predicate MeetsNoWorker(cfg: Config, s: State, step: Step)
    requires Enabled(s, step)
  {
    var t := Next(cfg, s, step);
    t.doc == s.doc || forall i :: 0 <= i < |t.callers| && Working(t.callers[i].pc) ==> !Unexpired(cfg, t, i)
  }

  /** Exactly which operator steps leave the exclusion intact. */
  lemma OperatorStepExact(cfg: Config, s: State, step: Step)
    requires Basic(cfg, s) && Excluded(cfg, s) && Enabled(s, step) && ByOperator(step)
    ensures Excluded(cfg, Next(cfg, s, step)) <==> MeetsNoWorker(cfg, s, step)
  {
    if step.OperatorWrite? {
      assert OperatorOk(s, step.a);
    }
  }

  /** What an operator can check first, with `status`: a lock that is absent, settled or expired is free to take. */
  lemma NotLiveIsSafe(cfg: Config, s: State, step: Step)
    requires Excluded(cfg, s) && Enabled(s, step) && ByOperator(step) && !IsLive(s.doc, step.at, cfg.timeout)
    ensures MeetsNoWorker(cfg, s, step)
  {
    var t := Next(cfg, s, step);
    forall i | 0 <= i < |t.callers| && Working(t.callers[i].pc)
      ensures !Unexpired(cfg, t, i)
    {
      assert t.callers[i] == s.callers[i];
      assert Unexpired(cfg, t, i) ==> Unexpired(cfg, s, i) && HoldsOwnClaim(s, i);
    }
  }

  /** Every operator step of the run meets no unexpired worker. */
  predicate Considerate(cfg: Config, s: State, steps: seq<Step>)
    requires Valid(cfg, s, steps)
    decreases |steps|
  {
    steps == [] ||
    ((ByOperator(steps[0]) ==> MeetsNoWorker(cfg, s, steps[0])) && Considerate(cfg, Next(cfg, s, steps[0]), steps[1..]))
  }

  /** The exclusion holds in every state of the run. */
  predicate AlwaysExcluded(cfg: Config, s: State, steps: seq<Step>)
    requires Valid(cfg, s, steps)
    decreases |steps|
  {
    Excluded(cfg, s) && (steps == [] || AlwaysExcluded(cfg, Next(cfg, s, steps[0]), steps[1..]))
  }

  /** Every change an operator makes to the document in the run meets an absent, settled or expired lock. */
  predicate SparesLive(cfg: Config, s: State, steps: seq<Step>)
    requires Valid(cfg, s, steps)
    decreases |steps|
  {
    steps == [] ||
    (var t := Next(cfg, s, steps[0]);
     && (ByOperator(steps[0]) && t.doc != s.doc ==> !IsLive(s.doc, steps[0].at, cfg.timeout))
     && SparesLive(cfg, t, steps[1..]))
  }

  lemma {:induction false} ExcludedRunExact(cfg: Config, s: State, steps: seq<Step>)
    requires Basic(cfg, s) && Excluded(cfg, s) && Valid(cfg, s, steps)
    ensures AlwaysExcluded(cfg, s, steps) <==> Considerate(cfg, s, steps)
    decreases |steps|
  {
    if steps != [] {
      BasicNext(cfg, s, steps[0]);
      if ByOperator(steps[0]) {
        OperatorStepExact(cfg, s, steps[0]);
      } else {
        ExcludedNext(cfg, s, steps[0]);
      }
      if Excluded(cfg, Next(cfg, s, steps[0])) {
        ExcludedRunExact(cfg, Next(cfg, s, steps[0]), steps[1..]);
      }
    }
  }

  lemma {:induction false} ExcludedRun(cfg: Config, s: State, steps: seq<Step>)
    requires Basic(cfg, s) && Excluded(cfg, s) && Valid(cfg, s, steps) && SparesLive(cfg, s, steps)
    ensures AlwaysExcluded(cfg, s, steps) && Excluded(cfg, Run(cfg, s, steps))
    decreases |steps|
  {
    if steps != [] {
      BasicNext(cfg, s, steps[0]);
      if ByOperator(steps[0]) {
        if Next(cfg, s, steps[0]).doc != s.doc {
          NotLiveIsSafe(cfg, s, steps[0]);
        }
        OperatorStepExact(cfg, s, steps[0]);
      } else {
        ExcludedNext(cfg, s, steps[0]);
      }
      ExcludedRun(cfg, Next(cfg, s, steps[0]), steps[1..]);
    }
  }

  /**
   * In every interleaving whose operator commands change the document only while it is absent,
   * settled or expired, lost acknowledgements and crashes included, a caller inside `run()` whose
   * claim is younger than the timeout is the document's holder; so no two callers do unexpired work
   * at once.
   */
  lemma Exclusion(cfg: Config, callers: nat, operators: nat, now: int, steps: seq<Step>)
    requires Valid(cfg, Init(callers, operators, now), steps) && SparesLive(cfg, Init(callers, operators, now), steps)
    ensures var s := Run(cfg, Init(callers, operators, now), steps);
            && (forall i | 0 <= i < |s.callers| && Working(s.callers[i].pc) && Unexpired(cfg, s, i) :: HoldsOwnClaim(s, i))
            && (forall i, j | 0 <= i < |s.callers| && 0 <= j < |s.callers|
                              && Working(s.callers[i].pc) && Unexpired(cfg, s, i)
                              && Working(s.callers[j].pc) && Unexpired(cfg, s, j) :: i == j)
  {
    ExcludedRun(cfg, Init(callers, operators, now), steps);
  }

  /** Exactly when the exclusion holds throughout a run with operators. */
  lemma ExclusionExact(cfg: Config, callers: nat, operators: nat, now: int, steps: seq<Step>)
    requires Valid(cfg, Init(callers, operators, now), steps)
    ensures AlwaysExcluded(cfg, Init(callers, operators, now), steps)
       <==> Considerate(cfg, Init(callers, operators, now), steps)
  {
    ExcludedRunExact(cfg, Init(callers, operators, now), steps);
  }

  /** Runs without operator commands are among those. */
  lemma {:induction false} NoOperatorSparesLive(cfg: Config, s: State, steps: seq<Step>)
    requires Valid(cfg, s, steps) && NoOperator(steps)
    ensures SparesLive(cfg, s, steps)
    decreases |steps|
  {
    if steps != [] {
      NoOperatorSparesLive(cfg, Next(cfg, s, steps[0]), steps[1..]);
    }
  }

  predicate OnlyUnforcedClaims(steps: seq<Step>) {
    forall k :: 0 <= k < |steps| && steps[k].OperatorRead? ==> steps[k].command == ForceClaim(false)
  }

  /** No operator is about to write over a lock it found live. */
  predicate PendingOverExpired(cfg: Config, s: State) {
    forall a :: 0 <= a < |s.operators| ==>
      s.operators[a].Idle? || (s.operators[a].PendingPut? && !IsLive(s.operators[a].before, s.now, cfg.timeout))
  }

  /** `forceClaim` without `--force` checks before it writes, and the revision keeps the check good. */
  lemma {:induction false} UnforcedClaimsSpareLive(cfg: Config, s: State, steps: seq<Step>)
    requires Basic(cfg, s) && PendingOverExpired(cfg, s) && Valid(cfg, s, steps) && OnlyUnforcedClaims(steps)
    ensures SparesLive(cfg, s, steps)
    decreases |steps|
  {
    if steps != [] {
      BasicNext(cfg, s, steps[0]);
      PendingKept(cfg, s, steps[0]);
      UnforcedClaimsSpareLive(cfg, Next(cfg, s, steps[0]), steps[1..]);
    }
  }

  lemma PendingKept(cfg: Config, s: State, step: Step)
    requires Basic(cfg, s) && PendingOverExpired(cfg, s) && Enabled(s, step)
    requires step.OperatorRead? ==> step.command == ForceClaim(false)
    ensures PendingOverExpired(cfg, Next(cfg, s, step))
    ensures ByOperator(step) && Next(cfg, s, step).doc != s.doc ==> !IsLive(s.doc, step.at, cfg.timeout)
  {
    hide Local, ArchiveRunningAttempt;
    if step.OperatorWrite? {
      assert OperatorOk(s, step.a);
    }
  }

  /** So any mixture of callers and unforced claims by operators keeps the exclusion. */
  lemma UnforcedClaimsKeepExclusion(cfg: Config, callers: nat, operators: nat, now: int, steps: seq<Step>)
    requires Valid(cfg, Init(callers, operators, now), steps) && OnlyUnforcedClaims(steps)
    ensures AlwaysExcluded(cfg, Init(callers, operators, now), steps)
  {
    UnforcedClaimsSpareLive(cfg, Init(callers, operators, now), steps);
    ExcludedRun(cfg, Init(callers, operators, now), steps);
  }

  /** One step of a run. */
  lemma RunStep(cfg: Config, s: State, step: Step, rest: seq<Step>)
    requires Enabled(s, step) && Valid(cfg, Next(cfg, s, step), rest)
    ensures Valid(cfg, s, [step] + rest) && Run(cfg, s, [step] + rest) == Run(cfg, Next(cfg, s, step), rest)
  {
    assert ([step] + rest)[1..] == rest;
  }

  /** Three steps of a caller that finds no document: it claims. */
  lemma ClaimsFree(cfg: Config, s: State, i: nat)
    requires i < |s.callers| && s.callers[i] == NewCaller() && s.doc.None?
    ensures var step := Advance(i, s.now, Ok, Done);
            && Valid(cfg, s, [step, step, step])
            && var t := Run(cfg, s, [step, step, step]);
               && t.now == s.now && |t.callers| == |s.callers| && t.operators == s.operators
               && t.callers == s.callers[i := t.callers[i]] && t.callers[i].pc.Claimed?
               && t.callers[i].claim == Some(Claim(s.nextRev, s.now)) && t.doc.Some?
  {
    var step := Advance(i, s.now, Ok, Done);
    var s1 := Next(cfg, s, step);
    var s2 := Next(cfg, s1, step);
    var s3 := Next(cfg, s2, step);
    RunStep(cfg, s2, step, []);
    RunStep(cfg, s1, step, [step]);
    RunStep(cfg, s, step, [step, step]);
    assert [step] + [] == [step] && [step] + [step] == [step, step] && [step] + [step, step] == [step, step, step];
  }

  /** The other half of the condition is needed: an operator deletes the document of a live doer, and a second caller claims. */
  lemma OperatorDeleteAdmitsTwoDoers(cfg: Config) returns (steps: seq<Step>)
    requires cfg.timeout > 0
    ensures Valid(cfg, Init(2, 1, 0), steps)
    ensures var s := Run(cfg, Init(2, 1, 0), steps);
            && |s.callers| == 2 && Working(s.callers[0].pc) && Working(s.callers[1].pc)
            && Unexpired(cfg, s, 0) && Unexpired(cfg, s, 1)
  {
    var s := Init(2, 1, 0);
    var a, b := Advance(0, 0, Ok, Done), Advance(1, 0, Ok, Done);
    var read, remove := OperatorRead(0, 0, 0, Delete), OperatorWrite(0, 0, Ok);
    ClaimsFree(cfg, s, 0);
    var s1 := Run(cfg, s, [a, a, a]);
    var s2 := Next(cfg, s1, read);
    var s3 := Next(cfg, s2, remove);
    assert s3.doc.None? && s3.callers == s1.callers && s3.now == 0;
    ClaimsFree(cfg, s3, 1);
    RunStep(cfg, s2, remove, [b, b, b]);
    RunStep(cfg, s1, read, [remove] + [b, b, b]);
    RunAppend(cfg, s, [a, a, a], [read] + ([remove] + [b, b, b]));
    steps := [a, a, a] + ([read] + ([remove] + [b, b, b]));
  }
}
