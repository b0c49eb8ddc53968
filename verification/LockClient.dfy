/**
 * The code of one caller (`tryClaim`, `settleLock`, `runAsDoer`, `waitForDoer`,
 * `withStartupMigrationLock`), run against a store that everyone else keeps changing.
 * Every I/O call lets the other callers take any number of protocol steps first, so the proofs
 * show that each execution of the code is a run of the protocol, and that the code terminates.
 */
module LockClient {
  import opened Prelude
  import opened LockDoc
  import P = LockProtocol
  import opened LockSafety
  import opened LockOutcome
  import opened LockProgress
  import opened LockTermination

  type State = P.State
  type Step = P.Step
  type Caller = P.Caller

  /** `readLock`: the document, null for a 404, or any other error. */
  datatype Read = Found(doc: Stored) | Missing | ReadError
  datatype PutResult = Written | Conflict | WriteError

  datatype ClaimResult = Claimed | Wait | ClaimThrew
  datatype WaitResult = Proceed(outcome: Outcome, error: Option<string>) | Retry | WaitThrew
  datatype CallResult = Resolved(result: P.Result) | Threw

  /** The document a successful read found, if any. */
  function DocOf(read: Read): Option<Stored> {
    if read.Found? then Some(read.doc) else None
  }

  /** What the store did at a read. */
  function IoOf(read: Read): P.Io {
    if read.ReadError? then P.Fail else P.Ok
  }

  function RevOf(doc: Option<Stored>): Option<nat> {
    if doc.Some? then Some(doc.value.rev) else None
  }

  /** The store's own test on a put: right revision, or nothing stored and no revision given. */
  predicate RevMatches(doc: Option<Stored>, rev: Option<nat>) {
    RevOf(doc) == rev
  }

  /** What a put does to the caller that issues it, to the document and to the record of commits. */
  lemma PutStep(cfg: P.Config, s: State, me: nat, at: int, io: P.Io)
    requires Inv(cfg, s) && me < |s.callers| && s.now <= at
    requires var pc := s.callers[me].pc; pc.ClaimPut? || pc.SettlePut?
    ensures var c := s.callers[me];
            var t := P.Next(cfg, s, P.Advance(me, at, io, P.Done));
            match c.pc
            case ClaimPut(nowMs, existing) =>
              var fits := RevMatches(s.doc, RevOf(existing));
              && t.callers[me] == (if !io.Ok? then P.ClaimFailed(cfg, c, at)
                                   else if fits then P.ClaimWon(c, s.nextRev, nowMs) else P.StartWaiting(cfg, c, at))
              && t.doc == (if fits && !io.Fail? then Some(Stored(ClaimOver(existing, Instance(me), nowMs), s.nextRev)) else s.doc)
              && t.events == s.events + (if fits && !io.Fail? then [P.ClaimEvent(Instance(me), s.nextRev)] else [])
            case SettlePut(outcome, error, nowMs, doc) =>
              var fits := RevMatches(s.doc, Some(doc.rev));
              && t.callers[me] == c.(pc := P.Returned(P.Doer(outcome, error)))
              && t.doc == (if fits && !io.Fail? then Some(Stored(SettleOver(doc.lock, outcome, error, nowMs), s.nextRev)) else s.doc)
              && t.events == s.events + (if fits && !io.Fail? then [P.SettleEvent(P.DoerOf(me), s.token, outcome, error)] else [])
            case _ => true
  {
    assert P.Enabled(s, P.Advance(me, at, io, P.Done));
  }

  /** Whose code is running. */
  datatype Actor = Caller(i: nat) | Operator(a: nat)

  predicate IsStepOf(step: Step, who: Actor) {
    match who
    case Caller(i) => !P.ByOperator(step) && step.i == i
    case Operator(a) => P.ByOperator(step) && step.a == a
  }

  predicate Exists(s: State, who: Actor) {
    match who
    case Caller(i) => i < |s.callers|
    case Operator(a) => a < |s.operators|
  }

  /**
   * The shared system as one caller or one operator meets it. In a tame world there are no operator
   * commands and no lost acknowledgements; only there do the polling loops have to end.
   */
  class World {
    const cfg: P.Config
    const tame: bool
    const start: State
    var s: State
    var trace: seq<Step>

    constructor (cfg: P.Config, callers: nat, operators: nat, now: int, tame: bool)
      requires tame ==> SleepsAdvance(cfg)
      ensures Consistent() && this.cfg == cfg && this.tame == tame
      ensures start == P.Init(callers, operators, now) && s == start && trace == []
    {
      this.cfg, this.tame, this.start := cfg, tame, P.Init(callers, operators, now);
      this.s, this.trace := P.Init(callers, operators, now), [];
      InitMeasure(cfg, callers, operators, now);
    }

    /** The state is what the recorded run of the protocol leads to. */
    ghost predicate Consistent()
      reads this
    {
      && P.Valid(cfg, start, trace) && s == P.Run(cfg, start, trace)
      && Inv(cfg, s)
      && (tame ==> SleepsAdvance(cfg) && AllTame(trace))
    }

    /** The system after some steps: still a run of the protocol and, if tame, no further from its end. */
    twostate predicate Advanced()
      reads this
    {
      && Consistent() && old(trace) <= trace && old(s.now) <= s.now
      && |s.callers| == |old(s).callers| && |s.operators| == |old(s).operators|
      && (tame ==> Measure(cfg, s) <= Measure(cfg, old(s)))
    }

    /** The same after at least one step. */
    twostate predicate Nearer()
      reads this
    {
      Advanced() && (tame ==> Measure(cfg, s) < Measure(cfg, old(s)))
    }

    /** The last step of the run, and the state it was taken in. */
    ghost predicate Stepped(before: State, step: Step)
      reads this
    {
      && trace != [] && trace[|trace| - 1] == step
      && P.Valid(cfg, start, trace[..|trace| - 1]) && before == P.Run(cfg, start, trace[..|trace| - 1])
      && P.Enabled(before, step) && s == P.Next(cfg, before, step)
    }

    method Do(step: Step)
      requires Consistent() && P.Enabled(s, step) && (tame ==> Tame(step))
      modifies this
      ensures Nearer() && s == P.Next(cfg, old(s), step) && Stepped(old(s), step)
    {
      if tame {
        MeasureDrops(cfg, s, step);
      }
      InvNext(cfg, s, step);
      P.RunAppend(cfg, start, trace, [step]);
      assert (trace + [step])[..|trace|] == trace;
      s, trace := P.Next(cfg, s, step), trace + [step];
    }

    /** Any number of steps by everyone else. */
    method Interfere(who: Actor)
      requires Consistent() && Exists(s, who)
      modifies this
      ensures Advanced()
      ensures who.Caller? ==> s.callers[who.i] == old(s.callers[who.i])
      ensures who.Operator? ==> s.operators[who.a] == old(s.operators[who.a])
    {
      var steps: nat := *;
      while steps > 0
        invariant Advanced()
        invariant who.Caller? ==> s.callers[who.i] == old(s.callers[who.i])
        invariant who.Operator? ==> s.operators[who.a] == old(s.operators[who.a])
      {
        var step: Step := *;
        if P.Enabled(s, step) && (tame ==> Tame(step)) && !IsStepOf(step, who) {
          Do(step);
        }
        steps := steps - 1;
      }
    }

    /** This caller's next step, at some time the clock allows. */
    method Own(me: nat, io: P.Io, run: P.RunEnd) returns (ghost before: State, at: int)
      requires Consistent() && me < |s.callers| && !P.Final(s.callers[me].pc) && (tame ==> !io.LostAck?)
      modifies this
      ensures Nearer() && Stepped(before, P.Advance(me, at, io, run))
      ensures me < |before.callers| && before.callers[me] == old(s.callers[me]) && Inv(cfg, before)
    {
      Interfere(Caller(me));
      at := *;
      var pc := s.callers[me].pc;
      at := Max(at, s.now);
      if pc.ClaimSleep? || pc.WaitSleep? {
        at := Max(at, pc.until);
      }
      before := s;
      Do(P.Advance(me, at, io, run));
    }

    method Now(me: nat) returns (nowMs: int)
      requires Consistent() && me < |s.callers|
      requires var pc := s.callers[me].pc; pc.ClaimStart? || pc.SettleStart? || pc.WaitStart?
      modifies this
      ensures Nearer()
      ensures var c := old(s.callers[me]);
              s.callers[me] == c.(pc := match c.pc
                                        case ClaimStart => P.ClaimGet(nowMs)
                                        case SettleStart(outcome, error) => P.SettleGet(outcome, error, nowMs)
                                        case _ => P.WaitGet(nowMs))
    {
      ghost var before;
      before, nowMs := Own(me, P.Ok, P.Done);
    }

    method Sleep(me: nat, ms: int, ghost from: int)
      requires Consistent() && me < |s.callers|
      requires var pc := s.callers[me].pc; (pc.ClaimSleep? || pc.WaitSleep?) && pc.until == from + ms
      modifies this
      ensures Nearer()
      ensures var c := old(s.callers[me]);
              s.callers[me] == c.(pc := if c.pc.ClaimSleep? then P.ClaimStart else P.WaitStart)
    {
      var _, at := Own(me, P.Ok, P.Done);
    }

    /** `db.get`, at a program point that reads the lock: what it returns is what is stored at that step. */
    method Get(me: nat) returns (r: Read, ghost at: int, ghost before: State)
      requires Consistent() && me < |s.callers|
      requires var pc := s.callers[me].pc; pc.ClaimGet? || pc.SettleGet? || pc.WaitGet?
      modifies this
      ensures Nearer() && Stepped(before, P.Advance(me, at, if r.ReadError? then P.Fail else P.Ok, P.Done))
      ensures me < |before.callers| && before.callers[me] == old(s.callers[me])
      ensures !r.ReadError? ==> before.doc == (if r.Found? then Some(r.doc) else None)
      ensures s.doc == before.doc && s.events == before.events
      ensures s.callers[me] == P.Local(cfg, me, old(s.callers[me]), if r.Found? then Some(r.doc) else None, 0, at,
                                       if r.ReadError? then P.Fail else P.Ok, P.Done).caller
    {
      var works: bool := *;
      before, at := Own(me, if works then P.Ok else P.Fail, P.Done);
      r := if !works then ReadError else if s.doc.Some? then Found(s.doc.value) else Missing;
    }

    /**
     * `db.put` of the document a claim or a settlement calls for. It is committed exactly when the
     * revision still fits and the write reaches the store, which a lost acknowledgement hides.
     */
    method Put(me: nat, lock: Lock, rev: Option<nat>) returns (r: PutResult, ghost at: int, ghost before: State, ghost io: P.Io)
      requires Consistent() && me < |s.callers|
      requires match s.callers[me].pc
               case ClaimPut(nowMs, existing) => lock == ClaimOver(existing, Instance(me), nowMs) && rev == RevOf(existing)
               case SettlePut(outcome, error, nowMs, doc) =>
                 lock == SettleOver(doc.lock, outcome, error, nowMs) && rev == Some(doc.rev)
               case _ => false
      modifies this
      ensures Nearer() && Inv(cfg, before) && me < |before.callers| && before.callers[me] == old(s.callers[me])
      ensures Stepped(before, P.Advance(me, at, io, P.Done)) && (tame ==> !io.LostAck?)
      ensures r == if !io.Ok? then WriteError else if RevMatches(before.doc, rev) then Written else Conflict
      ensures s.doc == if !io.Fail? && RevMatches(before.doc, rev) then Some(Stored(lock, before.nextRev)) else before.doc
      ensures s.events == before.events + (if !io.Fail? && RevMatches(before.doc, rev) then [CommitOf(before, me)] else [])
      ensures var c := old(s.callers[me]);
              match c.pc
              case ClaimPut(nowMs, _) =>
                (match r
                 case Written => s.callers[me] == P.ClaimWon(c, before.nextRev, nowMs)
                 case Conflict => s.callers[me] == P.StartWaiting(cfg, c, at)
                 case WriteError => s.callers[me] == P.ClaimFailed(cfg, c, at))
              case SettlePut(outcome, error, _, _) => s.callers[me] == c.(pc := P.Returned(P.Doer(outcome, error)))
              case _ => true
    {
      Interfere(Caller(me));
      var answer: P.Io := *;
      if tame && answer.LostAck? {
        answer := P.Fail;
      }
      var time: int := *;
      time := Max(time, s.now);
      var fits := RevMatches(s.doc, rev);
      PutStep(cfg, s, me, time, answer);
      at, before, io := time, s, answer;
      Do(P.Advance(me, time, answer, P.Done));
      r := if !answer.Ok? then WriteError else if fits then Written else Conflict;
    }
  }

  /** The commit that the put of caller `me` records. */
  function CommitOf(s: State, me: nat): P.Event
    requires me < |s.callers| && (s.callers[me].pc.ClaimPut? || s.callers[me].pc.SettlePut?)
  {
    match s.callers[me].pc
    case SettlePut(outcome, error, _, _) => P.SettleEvent(P.DoerOf(me), s.token, outcome, error)
    case _ => P.ClaimEvent(Instance(me), s.nextRev)
  }

  /**
   * `tryClaim`. It puts a claim exactly when its read succeeded and found no running lock younger than
   * the timeout; the claim is committed exactly when that put reached the store and nothing was
   * committed since the read; the three results follow.
   */
  method TryClaim(w: World, me: nat, nowMs: int)
    returns (r: ClaimResult, ghost at: int, ghost read: Read, ghost before: State, ghost put: Option<P.Io>)
    requires w.Consistent() && me < |w.s.callers| && w.s.callers[me].pc == P.ClaimGet(nowMs)
    modifies w
    ensures w.Nearer()
    ensures put.Some? <==> !read.ReadError? && !Young(DocOf(read), nowMs, w.cfg.timeout)
    ensures me < |before.callers| && w.Stepped(before, P.Advance(me, at, if put.Some? then put.value else IoOf(read), P.Done))
    ensures put.None? && !read.ReadError? ==> before.doc == DocOf(read)
    ensures put.Some? ==> before.callers[me].pc == P.ClaimPut(nowMs, DocOf(read))
    ensures r.Claimed? <==> put == Some(P.Ok) && Fits(before.doc, DocOf(read))
    ensures r.ClaimThrew? <==> read.ReadError? || (put.Some? && !put.value.Ok?)
    ensures if put.Some? && !put.value.Fail? && Fits(before.doc, DocOf(read))
            then before.doc == DocOf(read) && w.s.doc.Some? && w.s.doc.value.rev == before.nextRev
                 && IsClaim(w.s.doc.value.lock, before.doc, me, nowMs)
                 && w.s.events == before.events + [P.ClaimEvent(Instance(me), before.nextRev)]
            else w.s.doc == before.doc && w.s.events == before.events
    ensures var c := old(w.s.callers[me]);
            w.s.callers[me] == match r
                               case Claimed => P.ClaimWon(c, before.nextRev, nowMs)
                               case Wait => P.StartWaiting(w.cfg, c, at)
                               case ClaimThrew => P.ClaimFailed(w.cfg, c, at)
  {
    hide Inv, Measure, AllTame, SleepsAdvance, P.Valid, P.Run, P.Next, P.Enabled, P.ClaimWon, P.ClaimFailed, P.StartWaiting,
         ArchiveRunningAttempt, IsClaim;
    put := None;
    var found;
    found, at, before := w.Get(me);
    read := found;
    if found.ReadError? {
      return ClaimThrew, at, read, before, put;
    }
    var existing := if found.Found? then Some(found.doc) else None;
    if existing.Some? && existing.value.lock.status.Running? && !IsExpired(existing.value.lock, nowMs, w.cfg.timeout) {
      return Wait, at, read, before, put;
    }
    var next := Lock(
      Running, Instance(me), nowMs, nowMs,
      (if existing.Some? then existing.value.lock.attempt else 0) + 1,
      None,
      if existing.Some? then ArchiveRunningAttempt(existing.value.lock, nowMs) else []);
    var answer;
    ghost var io;
    answer, at, before, io := w.Put(me, next, RevOf(existing));
    put := Some(io);
    FittingSnapshot(w.cfg, before, me);
    NewClaimIs(existing, me, nowMs);
    PcIsReplaced(w.cfg, old(w.s.callers[me]), P.ClaimPut(nowMs, existing), before.nextRev, nowMs, at);
    match answer
    case Written => r := Claimed;
    case Conflict => r := Wait;
    case WriteError => r := ClaimThrew;
  }

  /** How a claim ends does not depend on where in `tryClaim` the caller was. */
  lemma PcIsReplaced(cfg: P.Config, c: Caller, pc: P.Pc, rev: nat, nowMs: int, at: int)
    ensures P.ClaimWon(c.(pc := pc), rev, nowMs) == P.ClaimWon(c, rev, nowMs)
    ensures P.StartWaiting(cfg, c.(pc := pc), at) == P.StartWaiting(cfg, c, at)
    ensures P.ClaimFailed(cfg, c.(pc := pc), at) == P.ClaimFailed(cfg, c, at)
  {
  }

  lemma NewClaimIs(existing: Option<Stored>, me: nat, nowMs: int)
    ensures IsClaim(ClaimOver(existing, Instance(me), nowMs), existing, me, nowMs)
  {
  }

  /** A revision that still fits means that the document read is the document stored. */
  lemma FittingSnapshot(cfg: P.Config, s: State, me: nat)
    requires Inv(cfg, s) && me < |s.callers|
    ensures match s.callers[me].pc
            case ClaimPut(_, existing) => RevMatches(s.doc, RevOf(existing)) ==> s.doc == existing
            case SettlePut(_, _, _, doc) => RevMatches(s.doc, Some(doc.rev)) ==> s.doc == Some(doc) && P.IsHolder(s, me)
            case _ => true
  {
    assert CallerOk(cfg, s, me);
  }

  /** `tryClaim` with a fresh clock sample. */
  method ClaimNow(w: World, me: nat) returns (r: ClaimResult, ghost at: int)
    requires w.Consistent() && me < |w.s.callers| && w.s.callers[me].pc.ClaimStart?
    modifies w
    ensures w.Nearer()
    ensures var c := old(w.s.callers[me]);
            match r
            case Claimed => w.s.callers[me].pc.Claimed? && HoldsOwnClaim(w.s, me)
            case Wait => w.s.callers[me] == P.StartWaiting(w.cfg, c, at)
            case ClaimThrew => w.s.callers[me] == P.ClaimFailed(w.cfg, c, at)
  {
    hide Inv, Measure, AllTame, SleepsAdvance, P.Valid, P.Run;
    var nowMs := w.Now(me);
    ghost var read, before, put;
    r, at, read, before, put := TryClaim(w, me, nowMs);
  }

  /**
   * `settleLock`, which swallows every error. It puts the settlement exactly when its read succeeded and
   * found a running lock held by this caller; the settlement is committed exactly when that put reached
   * the store and nothing was committed since the read.
   */
  method SettleLock(w: World, me: nat, outcome: Outcome, error: Option<string>, nowMs: int)
    returns (ghost at: int, ghost read: Read, ghost before: State, ghost put: Option<P.Io>)
    requires w.Consistent() && me < |w.s.callers| && w.s.callers[me].pc == P.SettleGet(outcome, error, nowMs)
    modifies w
    ensures w.Nearer()
    ensures w.s.callers[me] == old(w.s.callers[me]).(pc := P.Returned(P.Doer(outcome, error)))
    ensures Settles(w, me, outcome, error, nowMs, at, read, before, put)
  {
    hide Inv, Measure, AllTame, SleepsAdvance, P.Valid, P.Run;
    put := None;
    var found;
    found, at, before := w.Get(me);
    read := found;
    if !found.Found? || found.doc.lock.holder != Instance(me) || !found.doc.lock.status.Running? {
      return;
    }
    var doc := found.doc;
    var row := Attempt(Instance(me), doc.lock.startedAt, nowMs, Finished(outcome), error);
    ghost var answer, io;
    answer, at, before, io := w.Put(me, doc.lock.(status := Settled(outcome), updatedAt := nowMs, error := error,
                                                  history := LastN(doc.lock.history + [row], MAX_LOCK_HISTORY)),
                                    Some(doc.rev));
    put := Some(io);
    FittingSnapshot(w.cfg, before, me);
  }

  /** What a settlement comes to, by what it read and what became of its put. */
  ghost predicate Settles(w: World, me: nat, outcome: Outcome, error: Option<string>, nowMs: int,
                          at: int, read: Read, before: State, put: Option<P.Io>)
    reads w
  {
    && (put.Some? <==> read.Found? && read.doc.lock.status.Running? && read.doc.lock.holder == Instance(me))
    && me < |before.callers| && w.Stepped(before, P.Advance(me, at, if put.Some? then put.value else IoOf(read), P.Done))
    && (put.None? && !read.ReadError? ==> before.doc == DocOf(read))
    && (put.Some? ==> before.callers[me].pc == P.SettlePut(outcome, error, nowMs, read.doc))
    && if put.Some? && !put.value.Fail? && Fits(before.doc, DocOf(read))
       then before.doc == DocOf(read) && w.s.doc.Some?
            && IsSettlement(w.s.doc.value.lock, before.doc.value.lock, outcome, error, nowMs)
            && w.s.events == before.events + [P.SettleEvent(P.DoerOf(me), before.token, outcome, error)]
       else w.s.doc == before.doc && w.s.events == before.events
  }

  /** `await run()`, which ends on its own time. */
  method InvokeRun(w: World, me: nat) returns (end: P.RunEnd)
    requires w.Consistent() && me < |w.s.callers| && w.s.callers[me].pc.Claimed?
    modifies w
    ensures w.Nearer()
    ensures var c := old(w.s.callers[me]);
            w.s.callers[me] == c.(runs := c.runs + 1, pc := match end
                                                            case Done => P.SettleStart(Complete, None)
                                                            case Threw(message) => P.SettleStart(Failed, Some(message)))
  {
    var _, _ := w.Own(me, P.Ok, P.Done);
    end := *;
    var _, _ := w.Own(me, P.Ok, end);
  }

  /** `runAsDoer`: invoke `run` once, then settle; a throw is a `failed` settlement, not a rejection. */
  method RunAsDoer(w: World, me: nat)
    returns (result: P.Result, ghost end: P.RunEnd, ghost nowMs: int, ghost at: int, ghost read: Read, ghost before: State, ghost put: Option<P.Io>)
    requires w.Consistent() && me < |w.s.callers| && w.s.callers[me].pc.Claimed?
    modifies w
    ensures w.Nearer()
    ensures result == if end.Done? then P.Doer(Complete, None) else P.Doer(Failed, Some(end.message))
    ensures w.s.callers[me].pc == P.Returned(result) && w.s.callers[me].runs == old(w.s.callers[me].runs) + 1
    ensures Settles(w, me, result.outcome, result.error, nowMs, at, read, before, put)
  {
    var ended := InvokeRun(w, me);
    end := ended;
    if ended.Threw? {
      var failedAt := w.Now(me);
      nowMs := failedAt;
      at, read, before, put := SettleLock(w, me, Failed, Some(ended.message), failedAt);
      result := P.Doer(Failed, Some(ended.message));
      return;
    }
    var doneAt := w.Now(me);
    nowMs := doneAt;
    at, read, before, put := SettleLock(w, me, Complete, None, doneAt);
    result := P.Doer(Complete, None);
  }

  /** One round of the polling loop: sleep, sample the clock, read. */
  method SleepAndRead(w: World, me: nat, delay: int, ghost from: int)
    returns (nowMs: int, read: Read, ghost at: int, ghost before: State)
    requires w.Consistent() && me < |w.s.callers| && w.s.callers[me].pc == P.WaitSleep(from + delay)
    modifies w
    ensures w.Nearer()
    ensures var c := old(w.s.callers[me]);
            w.s.callers[me] == (match read
                                case ReadError => P.PollFailed(w.cfg, c, at)
                                case Missing => P.Polled(w.cfg, c, None, nowMs, at)
                                case Found(doc) => P.Polled(w.cfg, c, Some(doc), nowMs, at))
    ensures LastPoll(w, me, nowMs, read, at, before)
  {
    hide Inv, Measure, AllTame, SleepsAdvance, P.Valid, P.Run;
    w.Sleep(me, delay, from);
    nowMs := w.Now(me);
    read, at, before := w.Get(me);
  }

  /** The caller's last step so far is a poll at this clock sample, which found this. */
  ghost predicate LastPoll(w: World, me: nat, nowMs: int, read: Read, at: int, before: State)
    reads w
  {
    && w.Stepped(before, P.Advance(me, at, IoOf(read), P.Done))
    && (!read.ReadError? ==> before.doc == DocOf(read)) && w.s.doc == before.doc
  }

  /**
   * `waitForDoer`. It goes by the document its last poll found: it proceeds exactly when that is settled,
   * with its outcome and error, and retries exactly when there is none, or a running one as old as the
   * timeout at the clock sample; it throws exactly when that poll failed, which then spent the budget.
   */
  method WaitForDoer(w: World, me: nat, ghost from: int)
    returns (r: WaitResult, ghost last: Read, ghost sample: int, ghost at: int, ghost before: State)
    requires w.Consistent() && w.tame && me < |w.s.callers|
    requires var c := w.s.callers[me];
             c.pc == P.WaitSleep(from + w.cfg.poll) && c.polls == 0 && c.pollErrors == 0 && c.claimErrors == 0
    modifies w
    ensures w.Nearer() && LastPoll(w, me, sample, last, at, before)
    ensures forall outcome, error :: r == Proceed(outcome, error) <==>
              last.Found? && last.doc.lock.status == Settled(outcome) && last.doc.lock.error == error
    ensures r.Retry? <==>
              last.Missing? || (last.Found? && last.doc.lock.status.Running? && sample - last.doc.lock.startedAt >= w.cfg.timeout)
    ensures r.WaitThrew? <==> last.ReadError?
    ensures match r
            case Proceed(outcome, error) => w.s.callers[me].pc == P.Returned(P.Waiter(outcome, error))
            case Retry => w.s.callers[me].pc.ClaimStart? && w.s.callers[me].claimErrors == 0
            case WaitThrew => w.s.callers[me].pc.Rejected?
  {
    var polls, consecutiveErrors := 0, 0;
    at := from;
    while true
      invariant w.Advanced()
      invariant var c := w.s.callers[me];
                && c.polls == polls && c.pollErrors == consecutiveErrors && c.claimErrors == 0
                && c.pc == P.WaitSleep(at + if consecutiveErrors > 0
                                               then IoBackoff(consecutiveErrors, w.cfg.backoffBase, w.cfg.backoffCap)
                                               else w.cfg.poll)
      decreases Measure(w.cfg, w.s)
    {
      var delay := if consecutiveErrors > 0
                   then IoBackoff(consecutiveErrors, w.cfg.backoffBase, w.cfg.backoffCap)
                   else w.cfg.poll;
      var nowMs, read;
      nowMs, read, at, before := SleepAndRead(w, me, delay, at);
      last, sample := read, nowMs;
      if read.ReadError? {
        consecutiveErrors := consecutiveErrors + 1;
        if consecutiveErrors >= w.cfg.maxIoErrors {
          r := WaitThrew;
          return;
        }
      } else {
        consecutiveErrors := 0;
        polls := polls + 1;
        if read.Missing? {
          r := Retry;
          return;
        }
        var lock := read.doc.lock;
        if lock.status.Settled? {
          r := Proceed(lock.status.outcome, lock.error);
          return;
        }
        if IsExpired(lock, nowMs, w.cfg.timeout) {
          r := Retry;
          return;
        }
      }
    }
  }

  /** What a result says about the past of the call and of the document. */
  ghost predicate Explains(cfg: P.Config, s: State, me: nat, r: CallResult)
    requires me < |s.callers|
  {
    var c := s.callers[me];
    && c.runs == (if r.Resolved? && r.result.Doer? then 1 else 0)
    && (r.Resolved? && r.result.Waiter? ==> WasSettled(s.events, r.result.outcome, r.result.error))
    && (r.Threw? <==> Max(Trailing(c.io, P.ClaimIo(false)), Trailing(c.io, P.PollIo(false))) >= Budget(cfg))
  }

  lemma ExplainResult(cfg: P.Config, s: State, me: nat, r: CallResult)
    requires Inv(cfg, s) && me < |s.callers|
    requires s.callers[me].pc == (if r.Resolved? then P.Returned(r.result) else P.Rejected)
    ensures Explains(cfg, s, me, r)
  {
  }

  /**
   * What the last read of a call found: a waiter's result is that of the settled document; a doer has
   * put its settlement if that read succeeded and the lock was still its own.
   */
  ghost predicate Follows(w: World, me: nat, r: CallResult, nowMs: int, at: int, last: Read, before: State, put: Option<P.Io>)
    reads w
  {
    r.Resolved? ==>
      match r.result
      case Waiter(outcome, error) =>
        && LastPoll(w, me, nowMs, last, at, before)
        && last.Found? && last.doc.lock.status == Settled(outcome) && last.doc.lock.error == error
      case Doer(outcome, error) => Settles(w, me, outcome, error, nowMs, at, last, before, put)
  }

  /**
   * `withStartupMigrationLock`. Whatever the other callers and the store do meanwhile, the call
   * ends; a doer ran `run` once and settled unless it had lost the lock or its I/O failed; a waiter
   * never did and reports the settled document it read; and a rejection follows an unbroken streak of
   * failures as long as the budget.
   */
  method WithStartupMigrationLock(w: World, me: nat)
    returns (r: CallResult, ghost nowMs: int, ghost at: int, ghost last: Read, ghost before: State, ghost put: Option<P.Io>)
    requires w.Consistent() && w.tame && me < |w.s.callers| && w.s.callers[me] == P.NewCaller()
    modifies w
    ensures w.Consistent() && old(w.trace) <= w.trace && |w.s.callers| == |old(w.s).callers|
    ensures w.s.callers[me].pc == (if r.Resolved? then P.Returned(r.result) else P.Rejected)
    ensures Explains(w.cfg, w.s, me, r) && Follows(w, me, r, nowMs, at, last, before, put)
  {
    r, nowMs, at, last, before, put := CallUntilDone(w, me);
    ExplainResult(w.cfg, w.s, me, r);
  }

  /** The loop of `withStartupMigrationLock`. */
  method CallUntilDone(w: World, me: nat)
    returns (r: CallResult, ghost nowMs: int, ghost at: int, ghost last: Read, ghost before: State, ghost put: Option<P.Io>)
    requires w.Consistent() && w.tame && me < |w.s.callers| && w.s.callers[me] == P.NewCaller()
    modifies w
    ensures w.Advanced() && w.s.callers[me].pc == (if r.Resolved? then P.Returned(r.result) else P.Rejected)
    ensures Follows(w, me, r, nowMs, at, last, before, put)
  {
    hide Inv, Measure, AllTame, SleepsAdvance, P.Valid, P.Run, Settles, LastPoll;
    nowMs, at, last, before, put := 0, 0, ReadError, w.s, None;
    var consecutiveClaimErrors := 0;
    while true
      invariant w.Advanced() && w.s.callers[me].pc.ClaimStart?
      invariant w.s.callers[me].claimErrors == consecutiveClaimErrors
      decreases Measure(w.cfg, w.s)
    {
      var claim;
      claim, at := ClaimNow(w, me);
      match claim
      case ClaimThrew =>
        consecutiveClaimErrors := consecutiveClaimErrors + 1;
        if consecutiveClaimErrors >= w.cfg.maxIoErrors {
          r := Threw;
          return;
        }
        w.Sleep(me, IoBackoff(consecutiveClaimErrors, w.cfg.backoffBase, w.cfg.backoffCap), at);
      case Claimed =>
        var result;
        ghost var end;
        result, end, nowMs, at, last, before, put := RunAsDoer(w, me);
        r := Resolved(result);
        return;
      case Wait =>
        consecutiveClaimErrors := 0;
        var wait;
        wait, last, nowMs, at, before := WaitForDoer(w, me, at);
        match wait {
          case Proceed(outcome, error) =>
            r := Resolved(P.Waiter(outcome, error));
            return;
          case WaitThrew =>
            r := Threw;
            return;
          case Retry =>
        }
    }
  }
}
