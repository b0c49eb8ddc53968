/** How the stored documents follow the log, and that each answer is then the one the log calls for. */
module AuthAnswers {
  import opened Prelude
  import opened RateLimit
  import opened Retention
  import opened AuthRuns
  import opened AuthSweeps
  import opened AuthLog

  // ----- one more event

  lemma HasAppend(log: seq<Event>, e: Event, test: Event -> bool)
    ensures Has(log + [e], test) <==> Has(log, test) || test(e)
  {
    var after := log + [e];
    if Has(log, test) {
      var j :| 0 <= j < |log| && test(log[j]);
      assert test(after[j]);
    }
    if test(e) {
      assert test(after[|log|]);
    }
  }

  lemma UsesAppend(log: seq<Event>, e: Event, key: nat)
    ensures Uses(log + [e], key) == Uses(log, key) + if InviteConsumed(key)(e) then 1 else 0
  {
    FilterAppend(InviteConsumed(key), log, [e]);
  }

  lemma LaterAppend(log: seq<Event>, e: Event, i: nat, user: nat)
    requires i < |log|
    ensures LaterGrants(log + [e], i, user) == LaterGrants(log, i, user) + if GrantFor(user)(e) then 1 else 0
  {
    assert (log + [e])[i + 1..] == log[i + 1..] + [e];
    FilterAppend(GrantFor(user), log[i + 1..], [e]);
  }

  /** All the marks of a key after one more event. */
  lemma MarksAppend(log: seq<Event>, e: Event, key: nat)
    ensures Has(log + [e], RefreshInvalidated(key)) <==> Has(log, RefreshInvalidated(key)) || RefreshInvalidated(key)(e)
    ensures Has(log + [e], Exchanged(key)) <==> Has(log, Exchanged(key)) || Exchanged(key)(e)
    ensures Has(log + [e], CodeMarked(key)) <==> Has(log, CodeMarked(key)) || CodeMarked(key)(e)
    ensures Has(log + [e], TokenRevoked(key)) <==> Has(log, TokenRevoked(key)) || TokenRevoked(key)(e)
    ensures Has(log + [e], GrantConsumed(key)) <==> Has(log, GrantConsumed(key)) || GrantConsumed(key)(e)
    ensures Uses(log + [e], key) == Uses(log, key) + if InviteConsumed(key)(e) then 1 else 0
  {
    HasAppend(log, e, RefreshInvalidated(key));
    HasAppend(log, e, Exchanged(key));
    HasAppend(log, e, CodeMarked(key));
    HasAppend(log, e, TokenRevoked(key));
    HasAppend(log, e, GrantConsumed(key));
    UsesAppend(log, e, key);
  }

  /** A key that nothing has touched bears no marks. */
  lemma {:induction false} NoMarks(log: seq<Event>, key: nat)
    requires forall j :: 0 <= j < |log| && Changed(log[j]) ==> log[j].op.key != key
    ensures !Has(log, RefreshInvalidated(key)) && !Has(log, Exchanged(key)) && !Has(log, CodeMarked(key))
    ensures !Has(log, TokenRevoked(key)) && !Has(log, GrantConsumed(key)) && Uses(log, key) == 0
  {
    FilterNone(InviteConsumed(key), log);
  }

  /** An event that does not touch a document's key, nor its user's grants, leaves what it follows. */
  lemma Unmoved(settings: Settings, log: seq<Event>, i: nat, doc: Doc, e: Event)
    requires i < |log| && Follows(settings, log, i, doc) && !(Changed(e) && e.op.key == doc.key)
    requires doc.body.Grant? ==> !(e.op.RevokeGrants? && e.op.user == doc.body.userId)
    ensures Follows(settings, log + [e], i, doc)
  {
    hide Has, Uses, LaterGrants;
    MarksAppend(log, e, doc.key);
    assert (log + [e])[i] == log[i];
    if doc.body.Grant? {
      LaterAppend(log, e, i, doc.body.userId);
      StillWithdrawn(log, e, i, doc.body.userId);
    }
  }

  lemma StillWithdrawn(log: seq<Event>, e: Event, i: nat, user: nat)
    ensures Withdrawn(log, i, user) ==> Withdrawn(log + [e], i, user)
    ensures e.op.RevokeGrants? && e.op.user == user && i < |log| ==> Withdrawn(log + [e], i, user)
  {
    var after := log + [e];
    if Withdrawn(log, i, user) {
      var j :| i < j < |log| && log[j].op.RevokeGrants? && log[j].op.user == user;
      assert after[j] == log[j];
    }
    assert after[|log|] == e;
  }

  /** An operation on a document's own key changes it as the log then says. */
  lemma Moved(settings: Settings, log: seq<Event>, i: nat, doc: Doc, e: Event)
    requires i < |log| && Follows(settings, log, i, doc) && Changed(e) && e.op.key == doc.key
    requires IsRedemption(e.op) ==> OkOf(e.op)(doc.body)
    requires IsAmendment(e.op) ==> Named(e.op)(doc)
    ensures Follows(settings, log + [e], i, Doc(doc.key, if IsRedemption(e.op) then EffectOf(e.op)(doc.body) else ChangeOf(e.op)(doc.body)))
  {
    hide Has, Uses, LaterGrants;
    MarksAppend(log, e, doc.key);
    assert (log + [e])[i] == log[i];
    if doc.body.Grant? {
      LaterAppend(log, e, i, doc.body.userId);
      StillWithdrawn(log, e, i, doc.body.userId);
    }
  }

  // ----- lookups

  lemma PassesIff(docs: seq<Doc>, key: nat, ok: Body -> bool)
    requires Distinct(docs)
    ensures Passes(docs, Keyed(key), ok) <==> exists n :: 0 <= n < |docs| && docs[n].key == key && ok(docs[n].body)
  {
    KeyedOnce(docs, key);
    FilterMembers(Keyed(key), docs);
    var found := Filter(Keyed(key), docs);
    if |found| == 1 {
      assert found[0] in docs;
    }
    if n :| 0 <= n < |docs| && docs[n].key == key && ok(docs[n].body) {
      assert docs[n] in found;
    }
  }

  lemma FoundIff(docs: seq<Doc>, test: Test)
    ensures |Filter(test, docs)| > 0 <==> exists n :: 0 <= n < |docs| && test(docs[n])
  {
    FilterMembers(test, docs);
    if |Filter(test, docs)| > 0 {
      assert Filter(test, docs)[0] in docs;
    }
    if n :| 0 <= n < |docs| && test(docs[n]) {
      assert docs[n] in Filter(test, docs);
    }
  }

  // ----- each answer is the one the log calls for

  lemma DocBorn(settings: Settings, log: seq<Event>, births: seq<nat>, docs: seq<Doc>, i: nat) returns (n: nat)
    requires Agrees(settings, log, births, docs) && i < |log| && Stored(log[i])
    ensures n < |docs| && births[n] == i && Follows(settings, log, i, docs[n])
  {
    n :| 0 <= n < |births| && births[n] == i;
  }

  lemma DocFollows(settings: Settings, log: seq<Event>, births: seq<nat>, docs: seq<Doc>)
    requires Agrees(settings, log, births, docs)
    ensures |births| == |docs| && Distinct(docs)
    ensures forall n :: 0 <= n < |docs| ==> births[n] < |log| && Follows(settings, log, births[n], docs[n])
  {
  }

  lemma ExplainRefresh(settings: Settings, log: seq<Event>, births: seq<nat>, docs: seq<Doc>, op: Op)
    requires Agrees(settings, log, births, docs) && (op.ValidateRefresh? || op.ExchangeRefresh?)
    ensures Explains(settings, log, op, Accepted(Passes(docs, Keyed(op.key), OkOf(op))))
  {
    hide Agrees, Distinct, Has, Passes, Uses, LaterGrants;
    DocFollows(settings, log, births, docs);
    PassesIff(docs, op.key, OkOf(op));
    if n :| 0 <= n < |docs| && docs[n].key == op.key && OkOf(op)(docs[n].body) {
      assert Follows(settings, log, births[n], docs[n]);
      assert RefreshBorn(op.key)(log[births[n]]);
    }
    forall i | 0 <= i < |log| && RefreshBorn(op.key)(log[i])
      ensures exists n :: 0 <= n < |docs| && docs[n].key == op.key && Follows(settings, log, i, docs[n])
    {
      var n := DocBorn(settings, log, births, docs, i);
    }
  }

  lemma ExplainEmail(settings: Settings, log: seq<Event>, births: seq<nat>, docs: seq<Doc>, op: Op)
    requires Agrees(settings, log, births, docs) && op.ValidateEmailCode?
    ensures Explains(settings, log, op, Accepted(Passes(docs, Keyed(op.key), OkOf(op))))
  {
    hide Agrees, Distinct, Has, Passes, Uses, LaterGrants;
    DocFollows(settings, log, births, docs);
    PassesIff(docs, op.key, OkOf(op));
    if n :| 0 <= n < |docs| && docs[n].key == op.key && OkOf(op)(docs[n].body) {
      assert Follows(settings, log, births[n], docs[n]);
      assert EmailBorn(op.key)(log[births[n]]);
    }
    forall i | 0 <= i < |log| && EmailBorn(op.key)(log[i])
      ensures exists n :: 0 <= n < |docs| && docs[n].key == op.key && Follows(settings, log, i, docs[n])
    {
      var n := DocBorn(settings, log, births, docs, i);
    }
  }

  lemma ExplainChallenge(settings: Settings, log: seq<Event>, births: seq<nat>, docs: seq<Doc>, op: Op)
    requires Agrees(settings, log, births, docs) && op.ValidateVerification?
    ensures Explains(settings, log, op, Accepted(Passes(docs, Keyed(op.key), OkOf(op))))
  {
    hide Agrees, Distinct, Has, Passes, Uses, LaterGrants;
    DocFollows(settings, log, births, docs);
    PassesIff(docs, op.key, OkOf(op));
    if n :| 0 <= n < |docs| && docs[n].key == op.key && OkOf(op)(docs[n].body) {
      assert Follows(settings, log, births[n], docs[n]);
      assert ChallengeBorn(op.key)(log[births[n]]);
    }
    forall i | 0 <= i < |log| && ChallengeBorn(op.key)(log[i])
      ensures exists n :: 0 <= n < |docs| && docs[n].key == op.key && Follows(settings, log, i, docs[n])
    {
      var n := DocBorn(settings, log, births, docs, i);
    }
  }

  lemma ExplainLongLived(settings: Settings, log: seq<Event>, births: seq<nat>, docs: seq<Doc>, op: Op)
    requires Agrees(settings, log, births, docs) && op.ValidateLongLived?
    requires AllWritten(settings, docs)
    ensures Explains(settings, log, op, Accepted(Passes(docs, Keyed(op.key), OkOf(op))))
  {
    hide Agrees, Distinct, Has, Passes, Uses, LaterGrants;
    DocFollows(settings, log, births, docs);
    PassesIff(docs, op.key, OkOf(op));
    if n :| 0 <= n < |docs| && docs[n].key == op.key && OkOf(op)(docs[n].body) {
      assert Follows(settings, log, births[n], docs[n]);
      assert LongLivedBorn(op.key)(log[births[n]]);
    }
    forall i | 0 <= i < |log| && LongLivedBorn(op.key)(log[i])
      ensures exists n :: 0 <= n < |docs| && docs[n].key == op.key && Follows(settings, log, i, docs[n])
    {
      var n := DocBorn(settings, log, births, docs, i);
    }
  }

  lemma ExplainInvite(settings: Settings, log: seq<Event>, births: seq<nat>, docs: seq<Doc>, op: Op)
    requires Agrees(settings, log, births, docs) && op.ConsumeInvite?
    ensures Explains(settings, log, op, Accepted(Passes(docs, Keyed(op.key), OkOf(op))))
  {
    hide Agrees, Distinct, Has, Passes, Uses, LaterGrants;
    DocFollows(settings, log, births, docs);
    PassesIff(docs, op.key, OkOf(op));
    if n :| 0 <= n < |docs| && docs[n].key == op.key && OkOf(op)(docs[n].body) {
      assert Follows(settings, log, births[n], docs[n]);
      assert InviteBorn(op.key)(log[births[n]]);
    }
    if i :| 0 <= i < |log| && InviteBorn(op.key)(log[i]) && op.now <= log[i].op.expiry && (log[i].op.uses.Some? ==> Uses(log, op.key) < log[i].op.uses.value) {
      var n := DocBorn(settings, log, births, docs, i);
      assert docs[n].key == op.key && OkOf(op)(docs[n].body);
    }
  }

  lemma GrantSound(settings: Settings, log: seq<Event>, i: nat, doc: Doc, clock: int, op: Op)
    requires i < |log| && Follows(settings, log, i, doc) && op.ConsumeGrant? && Past(log, clock) && clock <= op.now
    requires doc.key == op.key && OkOf(op)(doc.body)
    ensures op.secretOk && !Has(log, GrantConsumed(op.key)) && GrantGood(settings, log, i, op.key, op.now)
  {
    hide Has, LaterGrants;
    assert GrantBorn(op.key)(log[i]);
    assert forall j :: i < j < |log| && log[j].op.RevokeGrants? ==> End(log[j].op) <= clock;
  }

  lemma GrantComplete(settings: Settings, log: seq<Event>, i: nat, doc: Doc, op: Op)
    requires i < |log| && Follows(settings, log, i, doc) && op.ConsumeGrant? && op.secretOk && !Has(log, GrantConsumed(op.key))
    requires GrantGood(settings, log, i, op.key, op.now) && LaterGrants(log, i, log[i].op.user) < settings.maxGrants
    ensures doc.key == op.key && OkOf(op)(doc.body)
  {
    hide Has, LaterGrants, Withdrawn;
  }

  lemma ExplainGrant(settings: Settings, log: seq<Event>, births: seq<nat>, docs: seq<Doc>, clock: int, op: Op)
    requires Agrees(settings, log, births, docs) && op.ConsumeGrant? && Past(log, clock) && clock <= op.now
    ensures Explains(settings, log, op, Accepted(Passes(docs, Keyed(op.key), OkOf(op))))
  {
    hide Agrees, Distinct, Has, Passes, Follows, LaterGrants, OkOf, Past;
    DocFollows(settings, log, births, docs);
    PassesIff(docs, op.key, OkOf(op));
    if n :| 0 <= n < |docs| && docs[n].key == op.key && OkOf(op)(docs[n].body) {
      GrantSound(settings, log, births[n], docs[n], clock, op);
    }
    if i :| GrantGood(settings, log, i, op.key, op.now) && LaterGrants(log, i, log[i].op.user) < settings.maxGrants
            && op.secretOk && !Has(log, GrantConsumed(op.key)) {
      var n := DocBorn(settings, log, births, docs, i);
      GrantComplete(settings, log, i, docs[n], op);
    }
  }

  lemma ExplainRedemption(settings: Settings, log: seq<Event>, births: seq<nat>, docs: seq<Doc>, clock: int, op: Op)
    requires Agrees(settings, log, births, docs) && FullOk(settings, docs, clock) && Past(log, clock)
    requires IsRedemption(op) && OpOk(docs, clock, op)
    ensures Explains(settings, log, op, Do(settings, docs, op).1)
  {
    hide Agrees, Explains, Do, Passes, OkOf, EffectOf, Past;
    RedemptionIs(settings, docs, op);
    match op
    case ValidateRefresh(_, _, _, _) => ExplainRefresh(settings, log, births, docs, op);
    case ExchangeRefresh(_, _, _, _, _) => ExplainRefresh(settings, log, births, docs, op);
    case ValidateEmailCode(_, _, _, _) => ExplainEmail(settings, log, births, docs, op);
    case ValidateVerification(_, _, _, _, _) => ExplainChallenge(settings, log, births, docs, op);
    case ValidateLongLived(_, _, _, _, _, _) => ExplainLongLived(settings, log, births, docs, op);
    case ConsumeGrant(_, _, _) => ExplainGrant(settings, log, births, docs, clock, op);
    case ConsumeInvite(_, _) => ExplainInvite(settings, log, births, docs, op);
  }

  /** The document an amendment names is there exactly when the log has its birth. */
  lemma NamedIsBorn(settings: Settings, log: seq<Event>, births: seq<nat>, docs: seq<Doc>, op: Op)
    requires Agrees(settings, log, births, docs) && IsAmendment(op)
    ensures (exists n :: 0 <= n < |docs| && Named(op)(docs[n])) <==>
            exists i :: 0 <= i < |log| && (if op.MarkCode? then EmailBorn(op.key)(log[i]) || ChallengeBorn(op.key)(log[i])
                                           else if op.InvalidateRefresh? then RefreshBorn(op.key)(log[i])
                                           else LongLivedBorn(op.key)(log[i]))
  {
    hide Has, Uses, LaterGrants, Times;
    if n :| 0 <= n < |docs| && Named(op)(docs[n]) {
      assert Follows(settings, log, births[n], docs[n]);
    }
    if i :| 0 <= i < |log| && (if op.MarkCode? then EmailBorn(op.key)(log[i]) || ChallengeBorn(op.key)(log[i])
                               else if op.InvalidateRefresh? then RefreshBorn(op.key)(log[i])
                               else LongLivedBorn(op.key)(log[i])) {
      var n := DocBorn(settings, log, births, docs, i);
      assert Named(op)(docs[n]);
    }
  }

  lemma ExplainAmendment(settings: Settings, log: seq<Event>, births: seq<nat>, docs: seq<Doc>, op: Op)
    requires Agrees(settings, log, births, docs) && IsAmendment(op)
    ensures Explains(settings, log, op, Do(settings, docs, op).1)
  {
    hide Do, Update, Filter, Named, Agrees, EmailBorn, ChallengeBorn, RefreshBorn, LongLivedBorn;
    AmendmentIs(settings, docs, op);
    FoundIff(docs, Named(op));
    NamedIsBorn(settings, log, births, docs, op);
  }

  lemma LimiterIs(settings: Settings, docs: seq<Doc>, subject: Subject, t1: int, t2: int)
    ensures LimiterAnswers(settings, LimiterFor(subject), Times(docs, subject), t1, t2, Gate(settings, docs, subject, t1, t2))
  {
    hide Times, Check;
    if settings.limiterEnabled {
      CheckAnswers(settings, LimiterFor(subject), Times(docs, subject), t1, t2);
    }
  }

  lemma CheckAnswers(settings: Settings, limiter: Limiter, times: seq<int>, t1: int, t2: int)
    requires settings.limiterEnabled && limiter.maxAttempts >= 1
    ensures LimiterAnswers(settings, limiter, times, t1, t2, Check(limiter, times, t1, t2))
  {
    hide Filter, Check, IsLatest;
    var decision := Check(limiter, times, t1, t2);
    if decision.Refused? {
      var at := decision.nextAttemptAllowedAt;
      CheckMeaning(limiter, times, t1, t2, at);
      var k := LatestAt(times, at - limiter.cooldown);
    }
    if k :| 0 <= k < |times| && IsLatest(times, times[k]) && t2 <= times[k] + limiter.cooldown
            && decision == Refused(times[k] + limiter.cooldown) {
      CheckMeaning(limiter, times, t1, t2, times[k] + limiter.cooldown);
    }
  }

  lemma LatestAt(times: seq<int>, latest: int) returns (k: nat)
    requires IsLatest(times, latest)
    ensures k < |times| && times[k] == latest
  {
    k :| 0 <= k < |times| && times[k] == latest;
  }

  lemma ExplainOther(settings: Settings, log: seq<Event>, births: seq<nat>, docs: seq<Doc>, op: Op)
    requires Agrees(settings, log, births, docs) && !IsRedemption(op) && !IsAmendment(op) && !op.SweepAll?
    ensures Explains(settings, log, op, Do(settings, docs, op).1)
  {
    hide Do, Update, Filter, Follows, Gate, Times, LimiterAnswers, Distinct, Fresh, Stored, CreationTimes;
    if op.RevokeGrants? {
      RevokeIs(settings, docs, op);
    } else {
      CreationAnswers(settings, docs, op);
      if op.RequestEmailCode? || op.RequestVerification? {
        LimiterIs(settings, docs, SubjectOf(op), op.t1, op.t2);
      }
    }
  }
}
