/** The bounded history and the attempt counter refine an unbounded log of finished attempts. */
module LockRecord {
  import opened Prelude
  import opened LockDoc
  import opened LockProtocol
  import opened LockSafety

  /** `after` is `before` with the rows appended and the oldest entries dropped. */
  predicate Appends(before: Option<Stored>, after: Lock, rows: seq<Attempt>) {
    |rows| <= 1
    && after.history ==
       (if before.None? then []
        else if rows == [] then before.value.lock.history
        else LastN(before.value.lock.history + rows, MAX_LOCK_HISTORY))
    && (before.None? ==> rows == [])
  }

  predicate HistoryOk(s: State) {
    && (s.doc.None? ==> s.log == [])
    && (s.doc.Some? ==> s.doc.value.lock.history == LastN(s.log, MAX_LOCK_HISTORY))
    && (forall a :: 0 <= a < |s.operators| && s.operators[a].PendingPut? ==>
          Appends(s.operators[a].before, s.operators[a].write.lock, s.operators[a].write.rows))
  }

  lemma HistoryCommit(s: State, before: Option<Stored>, w: Write)
    requires HistoryOk(s) && Accepts(s.doc, before) && SnapshotOk(s, before) && Appends(before, w.lock, w.rows)
    ensures w.lock.history == LastN(s.log + w.rows, MAX_LOCK_HISTORY)
  {
    if w.rows == [] {
      assert s.log + w.rows == s.log;
    } else {
      assert w.rows == [w.rows[0]];
      LastNAppend(s.log, w.rows[0], MAX_LOCK_HISTORY);
    }
  }

  lemma HistoryNext(cfg: Config, s: State, step: Step)
    requires Basic(cfg, s) && HistoryOk(s) && Enabled(s, step)
    ensures HistoryOk(Next(cfg, s, step))
  {
    match step
    case Advance(i, at, io, run) =>
      assert CallerOk(cfg, s, i);
      var eff := EffectOf(cfg, s, step);
      if eff.write.Some? {
        match s.callers[i].pc
        case ClaimPut(_, existing) => HistoryCommit(s, existing, eff.write.value);
        case SettlePut(_, _, _, doc) => HistoryCommit(s, Some(doc), eff.write.value);
      }
    case OperatorWrite(a, _, io) =>
      assert OperatorOk(s, a);
      if s.operators[a].PendingPut? && Accepts(s.doc, s.operators[a].before) {
        HistoryCommit(s, s.operators[a].before, s.operators[a].write);
      }
    case _ =>
  }

  lemma {:induction false} HistoryRun(cfg: Config, s: State, steps: seq<Step>)
    requires Basic(cfg, s) && HistoryOk(s) && Valid(cfg, s, steps)
    ensures HistoryOk(Run(cfg, s, steps))
    decreases |steps|
  {
    if steps != [] {
      BasicNext(cfg, s, steps[0]);
      HistoryNext(cfg, s, steps[0]);
      HistoryRun(cfg, Next(cfg, s, steps[0]), steps[1..]);
    }
  }

  /** Counter and timed-out rows, which operator commands may disturb. */
  predicate AttemptsOk(cfg: Config, s: State) {
    && (s.doc.Some? ==>
          s.doc.value.lock.attempt == |s.log| + (if s.doc.value.lock.status.Running? then 1 else 0))
    && (forall k :: 0 <= k < |s.log| && s.log[k].status.TimedOut? ==>
          s.log[k].finishedAt - s.log[k].startedAt >= cfg.timeout)
  }

  lemma AttemptsNext(cfg: Config, s: State, step: Step)
    requires Basic(cfg, s) && HistoryOk(s) && AttemptsOk(cfg, s) && Enabled(s, step) && !ByOperator(step)
    ensures AttemptsOk(cfg, Next(cfg, s, step))
  {
    if step.Advance? {
      assert CallerOk(cfg, s, step.i);
    }
  }

  lemma {:induction false} AttemptsRun(cfg: Config, s: State, steps: seq<Step>)
    requires Basic(cfg, s) && HistoryOk(s) && AttemptsOk(cfg, s) && Valid(cfg, s, steps) && NoOperator(steps)
    ensures AttemptsOk(cfg, Run(cfg, s, steps))
    decreases |steps|
  {
    if steps != [] {
      BasicNext(cfg, s, steps[0]);
      HistoryNext(cfg, s, steps[0]);
      AttemptsNext(cfg, s, steps[0]);
      AttemptsRun(cfg, Next(cfg, s, steps[0]), steps[1..]);
    }
  }

  /**
   * The stored history is always the last ten rows of the untruncated log since the document was
   * created, operator commands included. Without operator commands the attempt counter equals the
   * number of finished attempts, plus one while running, and every timed-out row spans the timeout.
   */
  lemma Bookkeeping(cfg: Config, callers: nat, operators: nat, now: int, steps: seq<Step>)
    requires Valid(cfg, Init(callers, operators, now), steps)
    ensures var s := Run(cfg, Init(callers, operators, now), steps);
            && (s.doc.Some? ==> s.doc.value.lock.history == LastN(s.log, MAX_LOCK_HISTORY))
            && (s.doc.None? ==> s.log == [])
            && (NoOperator(steps) ==> AttemptsOk(cfg, s))
  {
    HistoryRun(cfg, Init(callers, operators, now), steps);
    if NoOperator(steps) {
      AttemptsRun(cfg, Init(callers, operators, now), steps);
    }
  }
}
