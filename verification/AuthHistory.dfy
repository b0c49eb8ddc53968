/**
 * Every answer of a run is the one that the operations and answers before it call for; and what that
 * means for clients when expired documents are swept.
 */
module AuthHistory {
  import opened Prelude
  import opened RateLimit
  import opened Retention
  import opened AuthRuns
  import opened AuthSweeps
  import opened AuthLog
  import opened AuthAnswers
  import opened AuthSteps
  import opened AuthGrants

  // ----- whole runs

  /** Documents and log after a run so far, and the clock. */
  ghost predicate Together(settings: Settings, log: seq<Event>, births: seq<nat>, docs: seq<Doc>, clock: int) {
    Agrees(settings, log, births, docs) && GrantsInOrder(log, births, docs, clock) && Past(log, clock) && FullOk(settings, docs, clock)
  }

  lemma TogetherNext(settings: Settings, log: seq<Event>, births: seq<nat>, docs: seq<Doc>, clock: int, op: Op) returns (births': seq<nat>)
    requires Together(settings, log, births, docs, clock) && OpOk(docs, clock, op) && !op.SweepAll?
    ensures var (after, out) := Do(settings, docs, op);
            Explains(settings, log, op, out) && Together(settings, log + [Event(op, out)], births', after, End(op))
  {
    hide Do, Explains, GrantsInOrder, Follows, Fresh, TimesKnown, KeysKnown, AllBorn, Distinct, AllWritten, Start, NewDoc;
    var e := Event(op, Do(settings, docs, op).1);
    FullNext(settings, docs, clock, op);
    InOrderEnds(op);
    OrderNext(settings, log, births, docs, clock, op);
    if IsRedemption(op) {
      ExplainRedemption(settings, log, births, docs, clock, op);
      KeyedNext(settings, log, births, docs, op);
      births' := births;
    } else if IsAmendment(op) {
      ExplainAmendment(settings, log, births, docs, op);
      KeyedNext(settings, log, births, docs, op);
      births' := births;
    } else {
      ExplainOther(settings, log, births, docs, op);
      if op.RevokeGrants? {
        RevokeNext(settings, log, births, docs, op);
        births' := births;
      } else if op.CreateGrant? {
        GrantNext(settings, log, births, docs, clock, op);
        births' := births + [|log|];
      } else {
        births' := CreationNext(settings, log, births, docs, op);
      }
    }
  }

  /** The answers of a run, sweeps left out. */
  function History(settings: Settings, docs: seq<Doc>, ops: seq<Op>): seq<Event>
    decreases ops
  {
    if ops == [] then []
    else if ops[0].SweepAll? then History(settings, docs, ops[1..])
    else [Event(ops[0], Do(settings, docs, ops[0]).1)] + History(settings, Do(settings, docs, ops[0]).0, ops[1..])
  }

  lemma {:induction false} HistoryIsObserved(settings: Settings, docs: seq<Doc>, ops: seq<Op>)
    ensures var log := History(settings, docs, ops);
            && |log| == |NoSweeps(ops)| == |Observe(settings, docs, NoSweeps(ops))|
            && forall k :: 0 <= k < |log| ==> log[k] == Event(NoSweeps(ops)[k], Observe(settings, docs, NoSweeps(ops))[k])
    decreases ops
  {
    hide Do;
    if ops != [] {
      if ops[0].SweepAll? {
        HistoryIsObserved(settings, docs, ops[1..]);
        assert NoSweeps(ops) == NoSweeps(ops[1..]);
      } else {
        HistoryIsObserved(settings, Do(settings, docs, ops[0]).0, ops[1..]);
        assert NoSweeps(ops) == [ops[0]] + NoSweeps(ops[1..]);
        assert NoSweeps(ops)[1..] == NoSweeps(ops[1..]);
      }
    }
  }

  ghost predicate AllExplained(settings: Settings, log: seq<Event>, from: nat) {
    forall k :: from <= k < |log| ==> Explains(settings, log[..k], log[k].op, log[k].out)
  }

  lemma {:induction false} RunExplained(settings: Settings, log: seq<Event>, births: seq<nat>, docs: seq<Doc>, clock: int, ops: seq<Op>)
    requires Together(settings, log, births, docs, clock) && ValidRun(settings, docs, clock, ops)
    ensures AllExplained(settings, log + History(settings, docs, ops), |log|)
    decreases ops
  {
    hide Do, Explains, Agrees, GrantsInOrder, Past, FullOk, OpOk;
    if ops == [] {
      assert log + History(settings, docs, ops) == log;
    } else if ops[0].SweepAll? {
      LaterTogether(settings, log, births, docs, clock, Later(clock, ops[0]));
      RunExplained(settings, log, births, docs, Later(clock, ops[0]), ops[1..]);
    } else {
      var after, out := Do(settings, docs, ops[0]).0, Do(settings, docs, ops[0]).1;
      var births' := TogetherNext(settings, log, births, docs, clock, ops[0]);
      var next := log + [Event(ops[0], out)];
      RunExplained(settings, next, births', after, End(ops[0]), ops[1..]);
      var all := log + History(settings, docs, ops);
      assert all == next + History(settings, after, ops[1..]);
      assert all[..|log|] == log && all[|log|] == Event(ops[0], out);
    }
  }

  lemma LaterTogether(settings: Settings, log: seq<Event>, births: seq<nat>, docs: seq<Doc>, clock: int, later: int)
    requires Together(settings, log, births, docs, clock) && clock <= later
    ensures Together(settings, log, births, docs, later)
  {
    hide Agrees, Distinct, AllWritten, Filter, LaterGrants;
  }

  lemma NothingYet(settings: Settings, clock: int)
    requires clock >= 0
    ensures Together(settings, [], [], [], clock)
  {
  }

  /**
   * Every answer of a run from an empty store is the one that the operations and answers before it call
   * for, sweeps apart.
   */
  lemma AnswersExplained(settings: Settings, clock: int, ops: seq<Op>)
    requires clock >= 0 && ValidRun(settings, [], clock, ops)
    ensures var log := History(settings, [], ops);
            forall k :: 0 <= k < |log| ==> Explains(settings, log[..k], log[k].op, log[k].out)
  {
    NothingYet(settings, clock);
    RunExplained(settings, [], [], [], clock, ops);
    assert [] + History(settings, [], ops) == History(settings, [], ops);
  }

  // ----- what this means for clients, with safe sweeps in the run

  /** The operations of a run with the answers its clients saw. */
  function Seen(settings: Settings, ops: seq<Op>): seq<Event> {
    var outs := Observe(settings, [], ops);
    if |outs| == |NoSweeps(ops)| then seq(|outs|, k requires 0 <= k < |outs| => Event(NoSweeps(ops)[k], outs[k])) else []
  }

  /** Sweeps apart, the clients saw what the log has, but for amendments of dead documents. */
  lemma SeenIsHistory(settings: Settings, clock: int, ops: seq<Op>)
    requires clock >= 0 && ValidRun(settings, [], clock, ops) && SafeSweeps(settings, ops)
    ensures var log, seen := History(settings, [], ops), Seen(settings, ops);
            |seen| == |log| == |Observe(settings, [], ops)| && forall k :: 0 <= k < |log| ==>
              seen[k].op == log[k].op && (seen[k].out == log[k].out || (log[k].out == Found(true) && seen[k].out == Found(false)))
  {
    hide Observe, History;
    SweepsUnobservable(settings, clock, ops);
    HistoryIsObserved(settings, [], ops);
  }

  /** What makes a later answer impossible. */
  predicate Ends(e: Event, later: Op) {
    match e.op
    case ExchangeRefresh(key, _, _, _, _) => e.out == Accepted(true) && later.ExchangeRefresh? && later.key == key
    case InvalidateRefresh(key, _) =>
      e.out == Found(true) && (later.ValidateRefresh? || later.ExchangeRefresh?) && later.key == key
    case MarkCode(key, _) =>
      e.out == Found(true) && (later.ValidateEmailCode? || later.ValidateVerification?) && later.key == key
    case RevokeLongLived(key, _) => e.out == Found(true) && later.ValidateLongLived? && later.key == key
    case ConsumeGrant(key, _, _) => e.out == Accepted(true) && later.ConsumeGrant? && later.key == key
    case _ => false
  }

  /**
   * What was exchanged, invalidated, marked used, revoked or consumed is never accepted again: an
   * exchange token and a download grant are good once, and a marked code, an invalidated refresh token
   * and a revoked long-lived token not at all.
   */
  lemma SpentStaysSpent(settings: Settings, clock: int, ops: seq<Op>, j: nat, k: nat)
    requires clock >= 0 && ValidRun(settings, [], clock, ops) && SafeSweeps(settings, ops)
    requires j < k < |Seen(settings, ops)| && Ends(Seen(settings, ops)[j], Seen(settings, ops)[k].op)
    ensures Seen(settings, ops)[k].out == Accepted(false)
  {
    hide History, Seen, Observe, Uses;
    SeenIsHistory(settings, clock, ops);
    AnswersExplained(settings, clock, ops);
    var log := History(settings, [], ops);
    assert Explains(settings, log[..k], log[k].op, log[k].out);
    Bars(settings, log[..k], j, log[k]);
  }

  lemma Bars(settings: Settings, log: seq<Event>, j: nat, e: Event)
    requires j < |log| && Ends(log[j], e.op) && Explains(settings, log, e.op, e.out)
    ensures e.out == Accepted(false)
  {
    hide Uses, LaterGrants, LimiterAnswers;
    match log[j].op
    case ExchangeRefresh(key, _, _, _, _) => assert Exchanged(key)(log[j]);
    case InvalidateRefresh(key, _) => assert RefreshInvalidated(key)(log[j]);
    case MarkCode(key, _) => assert CodeMarked(key)(log[j]);
    case RevokeLongLived(key, _) => assert TokenRevoked(key)(log[j]);
    case ConsumeGrant(key, _, _) => assert GrantConsumed(key)(log[j]);
    case _ =>
  }

  /** An invite with n uses is consumed at most n times. */
  lemma InviteUses(settings: Settings, clock: int, ops: seq<Op>, key: nat, n: nat)
    requires clock >= 0 && ValidRun(settings, [], clock, ops) && SafeSweeps(settings, ops)
    requires forall k :: 0 <= k < |ops| && ops[k].CreateInvite? && ops[k].key == key ==> ops[k].uses == Some(n)
    ensures Uses(Seen(settings, ops), key) <= n
  {
    hide Seen, Observe;
    SeenIsHistory(settings, clock, ops);
    AnswersExplained(settings, clock, ops);
    var log := History(settings, [], ops);
    OpsOfHistory(settings, [], ops);
    UsesBounded(settings, log, key, n, |log|);
    assert log[..|log|] == log;
    SameUses(Seen(settings, ops), log, key);
  }

  lemma {:induction false} OpsOfHistory(settings: Settings, docs: seq<Doc>, ops: seq<Op>)
    ensures forall k :: 0 <= k < |History(settings, docs, ops)| ==> History(settings, docs, ops)[k].op in ops
    decreases ops
  {
    hide Do;
    if ops != [] {
      assert forall op :: op in ops[1..] ==> op in ops;
      if ops[0].SweepAll? {
        OpsOfHistory(settings, docs, ops[1..]);
      } else {
        OpsOfHistory(settings, Do(settings, docs, ops[0]).0, ops[1..]);
      }
    }
  }

  lemma {:induction false} UsesBounded(settings: Settings, log: seq<Event>, key: nat, n: nat, k: nat)
    requires k <= |log| && forall m :: 0 <= m < |log| ==> Explains(settings, log[..m], log[m].op, log[m].out)
    requires forall m :: 0 <= m < |log| && InviteBorn(key)(log[m]) ==> log[m].op.uses == Some(n)
    ensures Uses(log[..k], key) <= n
  {
    hide Explains, Uses;
    if k > 0 {
      UsesBounded(settings, log, key, n, k - 1);
      assert log[..k] == log[..k - 1] + [log[k - 1]];
      UsesAppend(log[..k - 1], log[k - 1], key);
      if InviteConsumed(key)(log[k - 1]) {
        OneMoreUse(settings, log[..k - 1], log[k - 1], key, n);
      }
    } else {
      NoUses(log, key);
    }
  }

  lemma NoUses(log: seq<Event>, key: nat)
    ensures Uses(log[..0], key) == 0
  {
  }

  lemma OneMoreUse(settings: Settings, log: seq<Event>, e: Event, key: nat, n: nat)
    requires InviteConsumed(key)(e) && Explains(settings, log, e.op, e.out)
    requires forall m :: 0 <= m < |log| && InviteBorn(key)(log[m]) ==> log[m].op.uses == Some(n)
    ensures Uses(log, key) < n
  {
    hide Uses;
  }

  lemma {:induction false} SameUses(seen: seq<Event>, log: seq<Event>, key: nat)
    requires |seen| == |log|
    requires forall k :: 0 <= k < |log| ==>
      seen[k].op == log[k].op && (seen[k].out == log[k].out || (log[k].out == Found(true) && seen[k].out == Found(false)))
    ensures Uses(seen, key) == Uses(log, key)
  {
    if log != [] {
      SameUses(seen[1..], log[1..], key);
    }
  }
}
