/**
 * The lock as a protocol: any number of callers of `withStartupMigrationLock`, plus operator
 * commands, interleave on one revisioned document. Every clock sample, `get`, `put`, sleep and
 * `run()` boundary is a step of its own, so a caller may act on a stale read or a stale sample.
 */
module LockProtocol {
  import opened Prelude
  import opened LockDoc

  /** The options all callers share. */
  datatype Config = Config(timeout: nat, poll: nat, maxIoErrors: int, backoffBase: nat, backoffCap: nat)

  /** What one `withStartupMigrationLock` call returned. */
  datatype Result = Doer(outcome: Outcome, error: Option<string>) | Waiter(outcome: Outcome, error: Option<string>)

  /** Where a caller is in its code, with the values its next step uses. */
  datatype Pc =
    | ClaimStart
    | ClaimGet(nowMs: int)
    | ClaimPut(nowMs: int, existing: Option<Stored>)
    | ClaimSleep(until: int)
    | Claimed
    | InRun
    | SettleStart(outcome: Outcome, error: Option<string>)
    | SettleGet(outcome: Outcome, error: Option<string>, nowMs: int)
    | SettlePut(outcome: Outcome, error: Option<string>, nowMs: int, doc: Stored)
    | WaitSleep(until: int)
    | WaitStart
    | WaitGet(nowMs: int)
    | Returned(result: Result)
    | Rejected
    | Crashed

  /** How one `tryClaim` call or one poll ended: did its I/O succeed? */
  datatype IoEvent = ClaimIo(ok: bool) | PollIo(ok: bool)

  /** A committed claim: its token (the revision it created) and its start time. */
  datatype Claim = Claim(token: nat, startedAt: int)

  /**
   * One caller. `claimErrors`, `polls` and `pollErrors` are the code's own counters; `runs`,
   * `claim` and `io` record what it did.
   */
  datatype Caller = Caller(pc: Pc, claimErrors: nat, polls: nat, pollErrors: nat,
                           runs: nat, claim: Option<Claim>, io: seq<IoEvent>)

  /** An operator command between its read and its write. */
  datatype OperatorPc = Idle | PendingPut(before: Option<Stored>, write: Write) | PendingRemove(removing: Stored)

  datatype Command =
    | Unlock(outcome: Outcome, reason: Option<string>, force: bool)
    | Delete
    | ForceClaim(force: bool)

  datatype Settler = DoerOf(index: nat) | OperatorTool

  /** A document about to be put, with the rows it appends to the history. */
  datatype Write =
    | NewClaim(lock: Lock, rows: seq<Attempt>)
    | Settlement(lock: Lock, rows: seq<Attempt>, settler: Settler, outcome: Outcome)

  /** Committed changes of the document, in order. */
  datatype Event =
    | ClaimEvent(who: Holder, token: nat)
    | SettleEvent(settler: Settler, token: nat, outcome: Outcome, error: Option<string>)
    | DeleteEvent(token: nat)

  /**
   * The whole system. `token` identifies the claim the stored document belongs to, `log` is the
   * untruncated history since the document was created, `events` lists every commit.
   */
  datatype State = State(doc: Option<Stored>, token: nat, nextRev: nat, now: int,
                         callers: seq<Caller>, operators: seq<OperatorPc>,
                         log: seq<Attempt>, events: seq<Event>)

  /** How the store answers. `LostAck` is a put that is applied but reported as an error. */
  datatype Io = Ok | Fail | LostAck
  datatype RunEnd = Done | Threw(message: string)

  datatype Step =
    | Advance(i: nat, at: int, io: Io, run: RunEnd)
    | Crash(i: nat, at: int)
    | OperatorRead(a: nat, at: int, nowMs: int, command: Command)
    | OperatorWrite(a: nat, at: int, io: Io)

  function NewCaller(): Caller {
    Caller(ClaimStart, 0, 0, 0, 0, None, [])
  }

  function Init(callers: nat, operators: nat, now: int): State {
    State(None, 0, 0, now, seq(callers, _ => NewCaller()), seq(operators, _ => Idle), [], [])
  }

  predicate Final(pc: Pc) {
    pc.Returned? || pc.Rejected? || pc.Crashed?
  }

  /** Between its claim and the end of `run()`. */
  predicate Working(pc: Pc) {
    pc.Claimed? || pc.InRun?
  }

  predicate Settling(pc: Pc) {
    pc.SettleStart? || pc.SettleGet? || pc.SettlePut?
  }

  predicate Waiting(pc: Pc) {
    pc.WaitSleep? || pc.WaitStart? || pc.WaitGet?
  }

  predicate Claiming(pc: Pc) {
    pc.ClaimStart? || pc.ClaimGet? || pc.ClaimPut? || pc.ClaimSleep?
  }

  /** Compare-and-swap: the revision read is still the stored one, or both are absent. */
  predicate Accepts(doc: Option<Stored>, read: Option<Stored>) {
    match read
    case None => doc.None?
    case Some(stored) => doc.Some? && doc.value.rev == stored.rev
  }

  // ----- one caller

  datatype Effect = Effect(caller: Caller, write: Option<Write>)

  function Quiet(c: Caller): Effect {
    Effect(c, None)
  }

  /** `tryClaim` threw: count it, and give up or back off. */
  function ClaimFailed(cfg: Config, c: Caller, at: int): Caller {
    var e := c.claimErrors + 1;
    c.(claimErrors := e, io := c.io + [ClaimIo(false)],
       pc := if e >= cfg.maxIoErrors then Rejected else ClaimSleep(at + IoBackoff(e, cfg.backoffBase, cfg.backoffCap)))
  }

  /** `tryClaim` returned `wait`: enter `waitForDoer`. */
  function StartWaiting(cfg: Config, c: Caller, at: int): Caller {
    c.(claimErrors := 0, polls := 0, pollErrors := 0, io := c.io + [ClaimIo(true)], pc := WaitSleep(at + cfg.poll))
  }

  function ClaimWon(c: Caller, rev: nat, startedAt: int): Caller {
    c.(claimErrors := 0, claim := Some(Claim(rev, startedAt)), io := c.io + [ClaimIo(true)], pc := Claimed)
  }

  function PollFailed(cfg: Config, c: Caller, at: int): Caller {
    var e := c.pollErrors + 1;
    c.(pollErrors := e, io := c.io + [PollIo(false)],
       pc := if e >= cfg.maxIoErrors then Rejected else WaitSleep(at + IoBackoff(e, cfg.backoffBase, cfg.backoffCap)))
  }

  /** A poll that read `doc`: proceed, retry the claim, or keep waiting. */
  function Polled(cfg: Config, c: Caller, doc: Option<Stored>, nowMs: int, at: int): Caller {
    c.(pollErrors := 0, polls := c.polls + 1, io := c.io + [PollIo(true)],
       pc := match doc
             case None => ClaimStart
             case Some(stored) =>
               match stored.lock.status
               case Settled(outcome) => Returned(Waiter(outcome, stored.lock.error))
               case Running => if IsExpired(stored.lock, nowMs, cfg.timeout) then ClaimStart else WaitSleep(at + cfg.poll))
  }

  /** The claim a caller would commit over `existing`. */
  function ClaimWrite(me: nat, existing: Option<Stored>, nowMs: int): Write {
    NewClaim(ClaimOver(existing, Instance(me), nowMs),
             if existing.Some? && existing.value.lock.status.Running?
             then [TimedOutRow(existing.value.lock, nowMs, None)] else [])
  }

  function SettleWrite(me: nat, doc: Stored, outcome: Outcome, error: Option<string>, nowMs: int): Write {
    Settlement(SettleOver(doc.lock, outcome, error, nowMs), [SettledRow(doc.lock, outcome, error, nowMs)],
               DoerOf(me), outcome)
  }

  /** The step caller `me` takes when the store holds `doc` and would assign `rev` to a put. */
  function Local(cfg: Config, me: nat, c: Caller, doc: Option<Stored>, rev: nat, at: int, io: Io, run: RunEnd): Effect
    requires !Final(c.pc)
  {
    match c.pc
    case ClaimStart => Quiet(c.(pc := ClaimGet(at)))
    case ClaimGet(nowMs) =>
      if !io.Ok? then Quiet(ClaimFailed(cfg, c, at))
      else if IsLive(doc, nowMs, cfg.timeout) then Quiet(StartWaiting(cfg, c, at))
      else Quiet(c.(pc := ClaimPut(nowMs, doc)))
    case ClaimPut(nowMs, existing) =>
      if !Accepts(doc, existing) then
        Quiet(if io.Ok? then StartWaiting(cfg, c, at) else ClaimFailed(cfg, c, at))
      else if io.Fail? then Quiet(ClaimFailed(cfg, c, at))
      else Effect(if io.Ok? then ClaimWon(c, rev, nowMs) else ClaimFailed(cfg, c, at),
                  Some(ClaimWrite(me, existing, nowMs)))
    case ClaimSleep(_) => Quiet(c.(pc := ClaimStart))
    case Claimed => Quiet(c.(pc := InRun, runs := c.runs + 1))
    case InRun => Quiet(c.(pc := match run case Done => SettleStart(Complete, None)
                                           case Threw(message) => SettleStart(Failed, Some(message))))
    case SettleStart(outcome, error) => Quiet(c.(pc := SettleGet(outcome, error, at)))
    case SettleGet(outcome, error, nowMs) =>
      Quiet(c.(pc := if !io.Ok? || doc.None? || doc.value.lock.holder != Instance(me) || !doc.value.lock.status.Running?
                     then Returned(Doer(outcome, error))
                     else SettlePut(outcome, error, nowMs, doc.value)))
    case SettlePut(outcome, error, nowMs, read) =>
      Effect(c.(pc := Returned(Doer(outcome, error))),
             if Accepts(doc, Some(read)) && !io.Fail? then Some(SettleWrite(me, read, outcome, error, nowMs)) else None)
    case WaitSleep(_) => Quiet(c.(pc := WaitStart))
    case WaitStart => Quiet(c.(pc := WaitGet(at)))
    case WaitGet(nowMs) =>
      Quiet(if io.Ok? then Polled(cfg, c, doc, nowMs, at) else PollFailed(cfg, c, at))
  }

  // ----- operator commands

  function OperatorPlan(cfg: Config, a: nat, doc: Option<Stored>, nowMs: int, command: Command): OperatorPc {
    match command
    case Unlock(outcome, reason, force) =>
      if doc.None? || (!doc.value.lock.status.Running? && !force) then Idle
      else
        var lock := doc.value.lock;
        var why := UnlockReason(lock, reason);
        PendingPut(doc, Settlement(UnlockOver(lock, outcome, why, nowMs),
                                   [SettledRow(lock, outcome, Some(why), nowMs)], OperatorTool, outcome))
    case Delete => if doc.None? then Idle else PendingRemove(doc.value)
    case ForceClaim(force) =>
      if IsLive(doc, nowMs, cfg.timeout) && !force then Idle
      else PendingPut(doc, NewClaim(OperatorClaimOver(doc, Operator(a), nowMs),
                                    if doc.Some? && doc.value.lock.status.Running?
                                    then [TimedOutRow(doc.value.lock, nowMs, Some("admin claim"))] else []))
  }

  // ----- the system

  function Commit(s: State, w: Write): State {
    var t := s.(doc := Some(Stored(w.lock, s.nextRev)), nextRev := s.nextRev + 1, log := s.log + w.rows);
    match w
    case NewClaim(lock, _) => t.(token := s.nextRev, events := s.events + [ClaimEvent(lock.holder, s.nextRev)])
    case Settlement(lock, _, settler, outcome) =>
      t.(events := s.events + [SettleEvent(settler, s.token, outcome, lock.error)])
  }

  function Remove(s: State): State {
    s.(doc := None, log := [], events := s.events + [DeleteEvent(s.token)])
  }

  predicate Enabled(s: State, step: Step) {
    && s.now <= step.at
    && match step
       case Advance(i, at, _, _) =>
         && i < |s.callers|
         && var pc := s.callers[i].pc;
         && !Final(pc)
         && (pc.ClaimSleep? ==> pc.until <= at)
         && (pc.WaitSleep? ==> pc.until <= at)
       case Crash(i, _) => i < |s.callers| && !Final(s.callers[i].pc)
       case OperatorRead(a, at, nowMs, _) => a < |s.operators| && s.operators[a].Idle? && nowMs <= at
       case OperatorWrite(a, _, _) => a < |s.operators| && !s.operators[a].Idle?
  }

  function EffectOf(cfg: Config, s: State, step: Step): Effect
    requires step.Advance? && Enabled(s, step)
  {
    Local(cfg, step.i, s.callers[step.i], s.doc, s.nextRev, step.at, step.io, step.run)
  }

  function Next(cfg: Config, s: State, step: Step): (t: State)
    requires Enabled(s, step)
    ensures |t.callers| == |s.callers| && |t.operators| == |s.operators| && t.now == step.at
  {
    match step
    case Advance(i, at, _, _) =>
      var eff := EffectOf(cfg, s, step);
      var t := s.(now := at, callers := s.callers[i := eff.caller]);
      if eff.write.Some? then Commit(t, eff.write.value) else t
    case Crash(i, at) => s.(now := at, callers := s.callers[i := s.callers[i].(pc := Crashed)])
    case OperatorRead(a, at, nowMs, command) =>
      s.(now := at, operators := s.operators[a := OperatorPlan(cfg, a, s.doc, nowMs, command)])
    case OperatorWrite(a, at, io) =>
      var t := s.(now := at, operators := s.operators[a := Idle]);
      match s.operators[a]
      case PendingPut(before, write) =>
        if Accepts(s.doc, before) && !io.Fail? then Commit(t, write) else t
      case PendingRemove(removing) =>
        if Accepts(s.doc, Some(removing)) && !io.Fail? then Remove(t) else t
  }

  // ----- runs

  predicate Valid(cfg: Config, s: State, steps: seq<Step>)
    decreases |steps|
  {
    steps == [] || (Enabled(s, steps[0]) && Valid(cfg, Next(cfg, s, steps[0]), steps[1..]))
  }

  function Run(cfg: Config, s: State, steps: seq<Step>): State
    requires Valid(cfg, s, steps)
    decreases |steps|
  {
    if steps == [] then s else Run(cfg, Next(cfg, s, steps[0]), steps[1..])
  }

  lemma {:induction false} RunAppend(cfg: Config, s: State, steps: seq<Step>, more: seq<Step>)
    requires Valid(cfg, s, steps) && Valid(cfg, Run(cfg, s, steps), more)
    ensures Valid(cfg, s, steps + more)
    ensures Run(cfg, s, steps + more) == Run(cfg, Run(cfg, s, steps), more)
    decreases |steps|
  {
    if steps == [] {
      assert steps + more == more;
    } else {
      assert (steps + more)[1..] == steps[1..] + more;
      RunAppend(cfg, Next(cfg, s, steps[0]), steps[1..], more);
    }
  }

  predicate ByOperator(step: Step) {
    step.OperatorRead? || step.OperatorWrite?
  }

  predicate NoOperator(steps: seq<Step>) {
    forall k :: 0 <= k < |steps| ==> !ByOperator(steps[k])
  }

  /** The document is `running` and names caller `i` as its holder. */
  predicate IsHolder(s: State, i: nat) {
    s.doc.Some? && s.doc.value.lock.status.Running? && s.doc.value.lock.holder == Instance(i)
  }
}
