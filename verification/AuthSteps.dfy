/** Each operation but the creation of a grant keeps the documents following the log. */
module AuthSteps {
  import opened Prelude
  import opened RateLimit
  import opened Retention
  import opened AuthRuns
  import opened AuthSweeps
  import opened AuthLog
  import opened AuthAnswers

  // ----- each step keeps documents and log together

  lemma CreationTimesAppend(log: seq<Event>, e: Event, subject: Subject)
    ensures CreationTimes(log + [e], subject) == CreationTimes(log, subject) + CreationTime(e, subject)
  {
    assert (log + [e])[..|log|] == log;
  }

  lemma AddedIsLogged(settings: Settings, docs: seq<Doc>, op: Op, subject: Subject)
    requires !op.SweepAll?
    ensures Added(settings, docs, op, subject) == CreationTime(Event(op, Do(settings, docs, op).1), subject)
  {
    hide Do, Gate;
    if IsCreation(op) {
      CreationAnswers(settings, docs, op);
    }
  }

  lemma TimesAgree(settings: Settings, log: seq<Event>, docs: seq<Doc>, op: Op)
    requires TimesKnown(log, docs) && !op.SweepAll?
    ensures TimesKnown(log + [Event(op, Do(settings, docs, op).1)], Do(settings, docs, op).0)
  {
    hide Do, Times, CreationTimes, CreationTime, Added;
    forall subject
      ensures Times(Do(settings, docs, op).0, subject) == CreationTimes(log + [Event(op, Do(settings, docs, op).1)], subject)
    {
      TimesNext(settings, docs, op, subject);
      AddedIsLogged(settings, docs, op, subject);
      CreationTimesAppend(log, Event(op, Do(settings, docs, op).1), subject);
    }
  }

  lemma KeysStayKnown(log: seq<Event>, docs: seq<Doc>, e: Event, after: seq<Doc>)
    requires KeysKnown(log, docs) && |after| >= |docs| && (Changed(e) ==> !Fresh(docs, e.op.key))
    requires forall n :: 0 <= n < |docs| ==> after[n].key == docs[n].key
    ensures KeysKnown(log + [e], after)
  {
    forall j | 0 <= j < |log + [e]| && Changed((log + [e])[j])
      ensures !Fresh(after, (log + [e])[j].op.key)
    {
      var key := (log + [e])[j].op.key;
      assert !Fresh(docs, key) by {
        assert j < |log| ==> (log + [e])[j] == log[j];
      }
      var n :| 0 <= n < |docs| && docs[n].key == key;
      assert after[n].key == key;
    }
  }

  /** Every document followed, none added. */
  lemma AgreesSame(settings: Settings, log: seq<Event>, births: seq<nat>, docs: seq<Doc>, e: Event, after: seq<Doc>)
    requires Agrees(settings, log, births, docs) && |after| == |docs|
    requires forall n :: 0 <= n < |docs| ==> after[n].key == docs[n].key && Follows(settings, log + [e], births[n], after[n])
    requires !Stored(e) && (Changed(e) ==> !Fresh(docs, e.op.key)) && TimesKnown(log + [e], after)
    ensures Agrees(settings, log + [e], births, after)
  {
    hide Follows, TimesKnown, KeysKnown, Stored, Changed, Fresh;
    var next := log + [e];
    assert forall j :: 0 <= j < |log| ==> next[j] == log[j];
    KeysStayKnown(log, docs, e, after);
  }

  /** Every document followed, one added. */
  lemma AgreesMore(settings: Settings, log: seq<Event>, births: seq<nat>, docs: seq<Doc>, e: Event, changed: seq<Doc>, doc: Doc)
    requires Agrees(settings, log, births, docs) && |changed| == |docs|
    requires forall n :: 0 <= n < |docs| ==> changed[n].key == docs[n].key && Follows(settings, log + [e], births[n], changed[n])
    requires Follows(settings, log + [e], |log|, doc) && Fresh(docs, doc.key) && Stored(e) && !Changed(e)
    requires TimesKnown(log + [e], changed + [doc])
    ensures Agrees(settings, log + [e], births + [|log|], changed + [doc])
  {
    hide Follows, TimesKnown, KeysKnown, Stored, Changed, Distinct, Fresh, AllBorn;
    var next, after, all := log + [e], changed + [doc], births + [|log|];
    KeysStayKnown(log, docs, e, after);
    DistinctMore(docs, changed, doc);
    BirthsMore(log, births, e);
    forall n | 0 <= n < |after|
      ensures all[n] < |next| && Follows(settings, next, all[n], after[n])
    {
      if n < |docs| {
        assert after[n] == changed[n] && all[n] == births[n];
      }
    }
  }

  lemma DistinctMore(docs: seq<Doc>, changed: seq<Doc>, doc: Doc)
    requires Distinct(docs) && Fresh(docs, doc.key) && |changed| == |docs|
    requires forall n :: 0 <= n < |docs| ==> changed[n].key == docs[n].key
    ensures Distinct(changed + [doc])
  {
  }

  lemma BirthsMore(log: seq<Event>, births: seq<nat>, e: Event)
    requires AllBorn(log, births)
    ensures AllBorn(log + [e], births + [|log|])
  {
    hide Stored;
    var next, all := log + [e], births + [|log|];
    forall i | 0 <= i < |next| && Stored(next[i])
      ensures exists n :: 0 <= n < |all| && all[n] == i
    {
      if i < |log| {
        var n :| 0 <= n < |births| && births[n] == i;
        assert all[n] == i;
      } else {
        assert all[|births|] == i;
      }
    }
  }

  /** A lookup by secret or id. */
  lemma KeyedNext(settings: Settings, log: seq<Event>, births: seq<nat>, docs: seq<Doc>, op: Op)
    requires Agrees(settings, log, births, docs) && (IsRedemption(op) || IsAmendment(op))
    ensures var (after, out) := Do(settings, docs, op); Agrees(settings, log + [Event(op, out)], births, after)
  {
    hide Do, Follows, TimesKnown, Update, Filter, OkOf, EffectOf, Named, ChangeOf, Passes, Distinct, Has;
    var after, out := Do(settings, docs, op).0, Do(settings, docs, op).1;
    var e := Event(op, out);
    TimesAgree(settings, log, docs, op);
    if IsRedemption(op) {
      RedemptionIs(settings, docs, op);
      PassesIff(docs, op.key, OkOf(op));
      UpdateAt(docs, Keyed(op.key), EffectOf(op));
    } else {
      AmendmentIs(settings, docs, op);
      FoundIff(docs, Named(op));
      UpdateAt(docs, Named(op), ChangeOf(op));
    }
    forall n | 0 <= n < |docs|
      ensures after[n].key == docs[n].key && Follows(settings, log + [e], births[n], after[n])
    {
      OneKeyed(settings, log, births, docs, op, n);
    }
    AgreesSame(settings, log, births, docs, e, after) by {
      if Changed(e) {
        FoundHasKey(docs, op);
      }
    }
  }

  lemma FoundHasKey(docs: seq<Doc>, op: Op)
    requires Distinct(docs) && (IsRedemption(op) || IsAmendment(op))
    requires IsRedemption(op) ==> Passes(docs, Keyed(op.key), OkOf(op))
    requires IsAmendment(op) ==> |Filter(Named(op), docs)| > 0
    ensures !Fresh(docs, op.key)
  {
    if IsRedemption(op) {
      PassesIff(docs, op.key, OkOf(op));
    } else {
      FoundIff(docs, Named(op));
    }
  }

  lemma OneKeyed(settings: Settings, log: seq<Event>, births: seq<nat>, docs: seq<Doc>, op: Op, n: nat)
    requires Agrees(settings, log, births, docs) && (IsRedemption(op) || IsAmendment(op)) && n < |docs|
    ensures var (after, out) := Do(settings, docs, op);
            |after| == |docs| && after[n].key == docs[n].key && Follows(settings, log + [Event(op, out)], births[n], after[n])
  {
    hide Do, Follows, TimesKnown, Update, Filter, EffectOf, ChangeOf, Passes, Has, OkOf;
    var after, out := Do(settings, docs, op).0, Do(settings, docs, op).1;
    var e := Event(op, out);
    if IsRedemption(op) {
      RedemptionIs(settings, docs, op);
      PassesIff(docs, op.key, OkOf(op));
      UpdateAt(docs, Keyed(op.key), EffectOf(op));
    } else {
      AmendmentIs(settings, docs, op);
      FoundIff(docs, Named(op));
      UpdateAt(docs, Named(op), ChangeOf(op));
    }
    if Changed(e) && docs[n].key == op.key {
      Moved(settings, log, births[n], docs[n], e);
    } else {
      Unmoved(settings, log, births[n], docs[n], e);
    }
  }

  /** A new document follows the log from the event that stored it. */
  lemma BornFollows(settings: Settings, log: seq<Event>, docs: seq<Doc>, op: Op, out: Output)
    requires IsCreation(op) && KeysKnown(log, docs) && Fresh(docs, op.key) && Stored(Event(op, out))
    ensures Follows(settings, log + [Event(op, out)], |log|, NewDoc(settings, op))
  {
    hide Has, Uses;
    var e := Event(op, out);
    NoMarks(log, op.key);
    MarksAppend(log, e, op.key);
    assert (log + [e])[|log|] == e;
  }

  lemma CreationNext(settings: Settings, log: seq<Event>, births: seq<nat>, docs: seq<Doc>, op: Op) returns (births': seq<nat>)
    requires Agrees(settings, log, births, docs) && IsCreation(op) && !op.CreateGrant? && Fresh(docs, op.key)
    ensures var (after, out) := Do(settings, docs, op);
            Agrees(settings, log + [Event(op, out)], births', after)
            && (if Stored(Event(op, out)) then after == docs + [NewDoc(settings, op)] && births' == births + [|log|]
                else after == docs && births' == births)
  {
    hide Do, Follows, TimesKnown, Gate, NewDoc, Fresh, Distinct, KeysKnown, AllBorn;
    var out := Do(settings, docs, op).1;
    var e := Event(op, out);
    CreationIs(settings, docs, op);
    CreationAnswers(settings, docs, op);
    TimesAgree(settings, log, docs, op);
    forall n | 0 <= n < |docs|
      ensures Follows(settings, log + [e], births[n], docs[n])
    {
      Unmoved(settings, log, births[n], docs[n], e);
    }
    if Stored(e) {
      births' := births + [|log|];
      BornFollows(settings, log, docs, op, out);
      NewKey(settings, op);
      AgreesMore(settings, log, births, docs, e, docs, NewDoc(settings, op));
    } else {
      births' := births;
      AgreesSame(settings, log, births, docs, e, docs);
    }
  }

  lemma NewKey(settings: Settings, op: Op)
    requires IsCreation(op)
    ensures NewDoc(settings, op).key == op.key
  {
  }

  /** A revocation marks the user's live grants. */
  lemma RevokedFollows(settings: Settings, log: seq<Event>, i: nat, doc: Doc, e: Event)
    requires i < |log| && Follows(settings, log, i, doc) && e.op.RevokeGrants?
    ensures Follows(settings, log + [e], i, if LiveGrant(e.op.user, e.op.now)(doc) then Doc(doc.key, MarkUsed(doc.body)) else doc)
  {
    hide Has, Uses, LaterGrants;
    if doc.body.Grant? && doc.body.userId == e.op.user {
      MarksAppend(log, e, doc.key);
      assert (log + [e])[i] == log[i];
      LaterAppend(log, e, i, doc.body.userId);
      StillWithdrawn(log, e, i, doc.body.userId);
    } else {
      Unmoved(settings, log, i, doc, e);
    }
  }

  lemma RevokeNext(settings: Settings, log: seq<Event>, births: seq<nat>, docs: seq<Doc>, op: Op)
    requires Agrees(settings, log, births, docs) && op.RevokeGrants?
    ensures var (after, out) := Do(settings, docs, op); Agrees(settings, log + [Event(op, out)], births, after)
  {
    hide Do, Follows, TimesKnown, Update, Filter, Distinct, KeysKnown, AllBorn, LiveGrant;
    var after, out := Do(settings, docs, op).0, Do(settings, docs, op).1;
    var e := Event(op, out);
    RevokeIs(settings, docs, op);
    TimesAgree(settings, log, docs, op);
    UpdateAt(docs, LiveGrant(op.user, op.now), MarkUsed);
    forall n | 0 <= n < |docs|
      ensures after[n].key == docs[n].key && Follows(settings, log + [e], births[n], after[n])
    {
      RevokedFollows(settings, log, births[n], docs[n], e);
    }
    AgreesSame(settings, log, births, docs, e, after);
  }
}
