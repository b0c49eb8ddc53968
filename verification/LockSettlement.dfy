/** Who may settle a claim, and what a caller that lost its claim can still do. */
module LockSettlement {
  import opened Prelude
  import opened LockDoc
  import opened LockProtocol
  import opened LockSafety

  predicate DoerSettles(e: Event) {
    e.SettleEvent? && e.settler.DoerOf?
  }

  /** No doer has settled the claim with this token. */
  predicate Unsettled(events: seq<Event>, token: nat) {
    forall k :: 0 <= k < |events| && DoerSettles(events[k]) ==> events[k].token != token
  }

  /** Tokens name claims one to one. */
  predicate ClaimsDistinct(events: seq<Event>) {
    forall k, m :: 0 <= k < m < |events| && events[k].ClaimEvent? && events[m].ClaimEvent? ==>
      events[k].token != events[m].token
  }

  /** No claim is settled twice by doers. */
  predicate SettledOnce(events: seq<Event>) {
    forall m :: 0 <= m < |events| && DoerSettles(events[m]) ==> Unsettled(events[..m], events[m].token)
  }

  /** Each doer settlement follows a claim with that token by that same caller. */
  predicate SettledByHolder(events: seq<Event>) {
    forall m :: 0 <= m < |events| && DoerSettles(events[m]) ==>
      ClaimEvent(Instance(events[m].settler.index), events[m].token) in events[..m]
  }

  predicate EventsOk(events: seq<Event>, nextRev: nat) {
    && (forall k :: 0 <= k < |events| ==> events[k].token < nextRev)
    && ClaimsDistinct(events) && SettledOnce(events) && SettledByHolder(events)
  }

  lemma EventsAppend(events: seq<Event>, nextRev: nat, e: Event, rev: nat)
    requires EventsOk(events, nextRev) && e.token < rev && nextRev <= rev
    requires e.ClaimEvent? ==> e.token >= nextRev
    requires DoerSettles(e) ==>
      Unsettled(events, e.token) && ClaimEvent(Instance(e.settler.index), e.token) in events
    ensures EventsOk(events + [e], rev)
  {
    var after := events + [e];
    forall m | 0 <= m < |after| && DoerSettles(after[m])
      ensures Unsettled(after[..m], after[m].token)
      ensures ClaimEvent(Instance(after[m].settler.index), after[m].token) in after[..m]
    {
      assert after[..m] == events[..m];
      assert events[..|events|] == events;
    }
  }

  /** The stored document belongs to a logged claim, unsettled by a doer as long as it is running. */
  predicate DocAuthority(s: State) {
    s.doc.Some? ==>
      && s.token < s.nextRev
      && ClaimEvent(s.doc.value.lock.holder, s.token) in s.events
      && (s.doc.value.lock.status.Running? ==> Unsettled(s.events, s.token))
  }

  /** A caller past its claim: if the document names it, then with its own claim. */
  predicate CallerAuthority(s: State, i: nat)
    requires i < |s.callers|
  {
    Working(s.callers[i].pc) || Settling(s.callers[i].pc) ==>
      s.callers[i].claim.Some? && (IsHolder(s, i) ==> s.token == s.callers[i].claim.value.token)
  }

  predicate Authority(s: State) {
    && EventsOk(s.events, s.nextRev)
    && DocAuthority(s)
    && (forall i :: 0 <= i < |s.callers| ==> CallerAuthority(s, i))
  }

  lemma CommitAuthority(s: State, w: Write)
    requires EventsOk(s.events, s.nextRev) && DocAuthority(s)
    requires w.NewClaim? ==> w.lock.status.Running?
    requires w.Settlement? ==> w.lock.status.Settled? && s.doc.Some? && w.lock.holder == s.doc.value.lock.holder
    requires w.Settlement? && w.settler.DoerOf? ==> IsHolder(s, w.settler.index)
    ensures EventsOk(Commit(s, w).events, s.nextRev + 1) && DocAuthority(Commit(s, w))
  {
    var t := Commit(s, w);
    EventsAppend(s.events, s.nextRev, t.events[|s.events|], s.nextRev + 1);
  }

  lemma AuthorityNext(cfg: Config, s: State, step: Step)
    requires Basic(cfg, s) && Authority(s) && Enabled(s, step)
    ensures Authority(Next(cfg, s, step))
  {
    var t := Next(cfg, s, step);
    assert EventsOk(t.events, t.nextRev) && DocAuthority(t) by {
      match step
      case Advance(i, _, _, _) =>
        assert CallerOk(cfg, s, i);
        var eff := EffectOf(cfg, s, step);
        if eff.write.Some? {
          CommitAuthority(s.(now := step.at, callers := s.callers[i := eff.caller]), eff.write.value);
        }
      case OperatorWrite(a, _, _) =>
        assert OperatorOk(s, a);
        var u := s.(now := step.at, operators := s.operators[a := Idle]);
        if s.operators[a].PendingPut? && Accepts(s.doc, s.operators[a].before) && !step.io.Fail? {
          CommitAuthority(u, s.operators[a].write);
        } else if s.operators[a].PendingRemove? && Accepts(s.doc, Some(s.operators[a].removing)) {
          EventsAppend(s.events, s.nextRev, DeleteEvent(s.token), s.nextRev);
        }
      case _ =>
    }
    forall i | 0 <= i < |t.callers|
      ensures CallerAuthority(t, i)
    {
      CallerAuthorityNext(cfg, s, step, i);
    }
  }

  lemma CallerAuthorityNext(cfg: Config, s: State, step: Step, i: nat)
    requires Basic(cfg, s) && Enabled(s, step) && i < |s.callers| && CallerAuthority(s, i)
    ensures CallerAuthority(Next(cfg, s, step), i)
  {
    if step.Advance? {
      assert CallerOk(cfg, s, step.i);
    } else if step.OperatorWrite? {
      assert OperatorOk(s, step.a);
    }
  }

  lemma {:induction false} AuthorityRun(cfg: Config, s: State, steps: seq<Step>)
    requires Basic(cfg, s) && Authority(s) && Valid(cfg, s, steps)
    ensures Basic(cfg, Run(cfg, s, steps)) && Authority(Run(cfg, s, steps))
    decreases |steps|
  {
    if steps != [] {
      BasicNext(cfg, s, steps[0]);
      AuthorityNext(cfg, s, steps[0]);
      AuthorityRun(cfg, Next(cfg, s, steps[0]), steps[1..]);
    }
  }

  /**
   * Over every interleaving, operator commands included, each committed claim gets at most one
   * settlement from a doer, and only from the caller that committed it.
   */
  lemma SettlementAuthority(cfg: Config, callers: nat, operators: nat, now: int, steps: seq<Step>)
    requires Valid(cfg, Init(callers, operators, now), steps)
    ensures var events := Run(cfg, Init(callers, operators, now), steps).events;
            ClaimsDistinct(events) && SettledOnce(events) && SettledByHolder(events)
  {
    AuthorityRun(cfg, Init(callers, operators, now), steps);
  }

  // ----- a caller that lost its claim

  /** Past its claim, but stolen from, settled by someone else, or left without a document. */
  predicate Dispossessed(s: State, i: nat)
    requires i < |s.callers|
  {
    (Working(s.callers[i].pc) || Settling(s.callers[i].pc) || Final(s.callers[i].pc)) && !IsHolder(s, i)
  }

  lemma DispossessedNext(cfg: Config, s: State, step: Step, i: nat)
    requires Basic(cfg, s) && Enabled(s, step) && i < |s.callers| && Dispossessed(s, i)
    ensures Dispossessed(Next(cfg, s, step), i)
    ensures step.Advance? && step.i == i ==> Next(cfg, s, step).doc == s.doc && Next(cfg, s, step).events == s.events
  {
    if step.Advance? {
      assert CallerOk(cfg, s, step.i);
    } else if step.OperatorWrite? {
      assert OperatorOk(s, step.a);
    }
  }

  /** Caller i's own steps in the run all leave the document and the event log as they were. */
  predicate WritesNothing(cfg: Config, s: State, steps: seq<Step>, i: nat)
    requires Valid(cfg, s, steps)
    decreases |steps|
  {
    steps == [] ||
    (var t := Next(cfg, s, steps[0]);
     && (steps[0].Advance? && steps[0].i == i ==> t.doc == s.doc && t.events == s.events)
     && WritesNothing(cfg, t, steps[1..], i))
  }

  lemma {:induction false} DispossessedRun(cfg: Config, s: State, steps: seq<Step>, i: nat)
    requires Basic(cfg, s) && Valid(cfg, s, steps) && i < |s.callers| && Dispossessed(s, i)
    ensures WritesNothing(cfg, s, steps, i)
    decreases |steps|
  {
    if steps != [] {
      BasicNext(cfg, s, steps[0]);
      DispossessedNext(cfg, s, steps[0], i);
      DispossessedRun(cfg, Next(cfg, s, steps[0]), steps[1..], i);
    }
  }

  /** The claim caller i is working for, or settling, is still the one in force. */
  predicate ClaimInForce(s: State, i: nat)
    requires i < |s.callers|
  {
    && s.doc.Some? && s.doc.value.lock.status.Running?
    && s.callers[i].claim.Some? && s.token == s.callers[i].claim.value.token
  }

  /**
   * Once a doer's claim was stolen, force-settled or deleted, no later step of that doer changes
   * the document, whatever everyone else does.
   */
  lemma LostClaimWritesNothing(cfg: Config, callers: nat, operators: nat, now: int,
                               before: seq<Step>, after: seq<Step>, i: nat)
    requires Valid(cfg, Init(callers, operators, now), before)
    requires i < callers
    requires var s := Run(cfg, Init(callers, operators, now), before);
             && i < |s.callers|
             && (Working(s.callers[i].pc) || Settling(s.callers[i].pc)) && !ClaimInForce(s, i)
             && Valid(cfg, s, after)
    ensures WritesNothing(cfg, Run(cfg, Init(callers, operators, now), before), after, i)
  {
    AuthorityRun(cfg, Init(callers, operators, now), before);
    var s := Run(cfg, Init(callers, operators, now), before);
    assert CallerAuthority(s, i);
    DispossessedRun(cfg, s, after, i);
  }
}
