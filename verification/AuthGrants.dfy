/** So does the creation of a grant, whichever it displaces: grants are stored in the order of their creation. */
module AuthGrants {
  import opened Prelude
  import opened RateLimit
  import opened Retention
  import opened AuthRuns
  import opened AuthSweeps
  import opened GrantCap
  import opened AuthLog
  import opened AuthAnswers
  import opened AuthSteps

  // ----- which grants a creation displaces

  lemma {:induction false} AlreadySorted(grants: seq<Doc>)
    requires AllGrants(grants) && IsSorted(grants)
    ensures OldestFirst(grants) == grants
  {
    if grants != [] {
      AlreadySorted(grants[1..]);
    }
  }

  lemma LiveInOrder(log: seq<Event>, births: seq<nat>, docs: seq<Doc>, clock: int, user: nat, now: int) returns (places: seq<nat>)
    requires |births| == |docs| && (forall n :: 0 <= n < |docs| ==> births[n] < |log|) && GrantsInOrder(log, births, docs, clock)
    ensures var live := Filter(LiveGrant(user, now), docs);
            && AllGrants(live) && IsSorted(live) && |places| == |live|
            && (forall i :: 0 <= i < |places| ==> places[i] < |docs| && docs[places[i]] == live[i])
            && (forall i, j :: 0 <= i < j < |places| ==> places[i] < places[j])
  {
    hide Filter, LaterGrants;
    var live := Filter(LiveGrant(user, now), docs);
    places := FilterOrigins(LiveGrant(user, now), docs);
    FilterElements(LiveGrant(user, now), docs);
    forall i, j | 0 <= i < j < |live|
      ensures live[i].body.Grant? && live[j].body.Grant? && live[i].body.created <= live[j].body.created
    {
      assert live[i] == docs[places[i]] && live[j] == docs[places[j]];
    }
  }

  /** What is displaced has cap - 1 younger live grants behind it. */
  lemma Displaced(settings: Settings, log: seq<Event>, births: seq<nat>, docs: seq<Doc>, clock: int, op: Op, n: nat)
    requires |births| == |docs| && (forall n :: 0 <= n < |docs| ==> births[n] < |log|) && GrantsInOrder(log, births, docs, clock)
    requires Distinct(docs) && op.CreateGrant? && n < |docs| && docs[n].key in Revocable(settings, docs, op)
    ensures LiveGrant(op.user, op.t1)(docs[n]) && LaterGrants(log, births[n], op.user) + 1 >= settings.maxGrants
  {
    hide Filter, LaterGrants, OldestFirst;
    var test := LiveGrant(op.user, op.t1);
    var live := Filter(test, docs);
    var places := LiveInOrder(log, births, docs, clock, op.user, op.t1);
    AlreadySorted(live);
    var i :| 0 <= i < |live| && i < |live| - (settings.maxGrants - 1) && live[i].key == docs[n].key;
    FilterElements(test, docs);
    assert places[i] == n;
    SplitAt(test, docs, n);
    assert places[|Filter(test, docs[..n])|] == n;
    LiveAreGrants(op.user, op.t1, docs[n + 1..]);
  }

  lemma SplitAt(test: Test, docs: seq<Doc>, n: nat)
    requires n < |docs| && test(docs[n])
    ensures var before, behind, all := Filter(test, docs[..n]), Filter(test, docs[n + 1..]), Filter(test, docs);
            |all| == |before| + 1 + |behind| && all[|before|] == docs[n]
  {
    assert docs == docs[..n] + ([docs[n]] + docs[n + 1..]);
    FilterAppend(test, docs[..n], [docs[n]] + docs[n + 1..]);
    FilterAppend(test, [docs[n]], docs[n + 1..]);
    FilterAll(test, [docs[n]]);
  }

  lemma LiveAreGrants(user: nat, now: int, docs: seq<Doc>)
    ensures |Filter(LiveGrant(user, now), docs)| <= |Filter(GrantOf(user), docs)|
  {
    FilterAbsorb(GrantOf(user), LiveGrant(user, now), docs);
    FilterMembers(LiveGrant(user, now), Filter(GrantOf(user), docs));
  }

  /** A creation marks what it displaces. */
  lemma DisplacedFollows(settings: Settings, log: seq<Event>, i: nat, doc: Doc, e: Event, displaced: bool)
    requires i < |log| && Follows(settings, log, i, doc) && e.op.CreateGrant?
    requires displaced ==> LiveGrant(e.op.user, e.op.t1)(doc) && LaterGrants(log, i, e.op.user) + 1 >= settings.maxGrants
    ensures Follows(settings, log + [e], i, if displaced then Doc(doc.key, MarkUsed(doc.body)) else doc)
  {
    hide Has, Uses, LaterGrants;
    if displaced {
      MarksAppend(log, e, doc.key);
      assert (log + [e])[i] == log[i];
      LaterAppend(log, e, i, doc.body.userId);
      StillWithdrawn(log, e, i, doc.body.userId);
    } else {
      Unmoved(settings, log, i, doc, e);
    }
  }

  lemma GrantNext(settings: Settings, log: seq<Event>, births: seq<nat>, docs: seq<Doc>, clock: int, op: Op)
    requires Agrees(settings, log, births, docs) && GrantsInOrder(log, births, docs, clock) && op.CreateGrant? && Fresh(docs, op.key)
    ensures var (after, out) := Do(settings, docs, op); Agrees(settings, log + [Event(op, out)], births + [|log|], after)
  {
    hide Do, Follows, TimesKnown, Update, Filter, Fresh, KeysKnown, AllBorn, LiveGrant, Revocable, NewDoc, GrantsInOrder, LaterGrants, Distinct;
    var out := Do(settings, docs, op).1;
    var e, keys := Event(op, out), Revocable(settings, docs, op);
    var changed := Update(docs, KeyIn(keys), MarkUsed);
    CreateGrantIs(settings, docs, op);
    TimesAgree(settings, log, docs, op);
    UpdateAt(docs, KeyIn(keys), MarkUsed);
    forall n | 0 <= n < |docs|
      ensures changed[n].key == docs[n].key && Follows(settings, log + [e], births[n], changed[n])
    {
      if docs[n].key in keys {
        Displaced(settings, log, births, docs, clock, op, n);
      }
      DisplacedFollows(settings, log, births[n], docs[n], e, docs[n].key in keys);
    }
    BornFollows(settings, log, docs, op, out);
    NewKey(settings, op);
    AgreesMore(settings, log, births, docs, e, changed, NewDoc(settings, op));
  }

  /** The documents as far as the order of grants goes. */
  predicate SameGrants(docs: seq<Doc>, after: seq<Doc>) {
    |after| == |docs| && forall n :: 0 <= n < |docs| ==>
      after[n].body.Grant? == docs[n].body.Grant?
      && (docs[n].body.Grant? ==> after[n].body.userId == docs[n].body.userId && after[n].body.created == docs[n].body.created)
  }

  lemma {:induction false} SameCount(docs: seq<Doc>, after: seq<Doc>, user: nat)
    requires SameGrants(docs, after)
    ensures |Filter(GrantOf(user), after)| == |Filter(GrantOf(user), docs)|
  {
    if docs != [] {
      SameCount(docs[1..], after[1..], user);
    }
  }

  lemma OrderSame(log: seq<Event>, births: seq<nat>, docs: seq<Doc>, clock: int, e: Event, after: seq<Doc>, later: int)
    requires |births| == |docs| && (forall n :: 0 <= n < |docs| ==> births[n] < |log|) && GrantsInOrder(log, births, docs, clock)
    requires SameGrants(docs, after) && !e.op.CreateGrant? && clock <= later
    ensures GrantsInOrder(log + [e], births, after, later)
  {
    hide Filter, LaterGrants;
    forall n, user | 0 <= n < |docs|
      ensures |Filter(GrantOf(user), after[n + 1..])| == LaterGrants(log + [e], births[n], user)
    {
      SameCount(docs[n + 1..], after[n + 1..], user);
      LaterAppend(log, e, births[n], user);
    }
  }

  lemma OrderMore(log: seq<Event>, births: seq<nat>, docs: seq<Doc>, clock: int, e: Event, changed: seq<Doc>, doc: Doc, later: int)
    requires |births| == |docs| && (forall n :: 0 <= n < |docs| ==> births[n] < |log|) && GrantsInOrder(log, births, docs, clock)
    requires SameGrants(docs, changed) && clock <= later
    requires doc.body.Grant? ==> clock <= doc.body.created <= later
    requires forall user :: GrantOf(user)(doc) <==> GrantFor(user)(e)
    ensures GrantsInOrder(log + [e], births + [|log|], changed + [doc], later)
  {
    hide Filter, LaterGrants;
    var after, all := changed + [doc], births + [|log|];
    forall n, user | 0 <= n < |after|
      ensures |Filter(GrantOf(user), after[n + 1..])| == LaterGrants(log + [e], all[n], user)
    {
      if n < |docs| {
        assert after[n + 1..] == changed[n + 1..] + [doc];
        FilterAppend(GrantOf(user), changed[n + 1..], [doc]);
        SameCount(docs[n + 1..], changed[n + 1..], user);
        LaterAppend(log, e, births[n], user);
        OneGrant(doc, user);
      } else {
        NoneLater(log + [e], |log|, user);
        FilterNone(GrantOf(user), after[n + 1..]);
      }
    }
  }

  lemma OneGrant(doc: Doc, user: nat)
    ensures |Filter(GrantOf(user), [doc])| == if GrantOf(user)(doc) then 1 else 0
  {
  }

  lemma NoneLater(log: seq<Event>, i: nat, user: nat)
    requires i + 1 == |log|
    ensures LaterGrants(log, i, user) == 0
  {
  }

  lemma UpdateIsSame(docs: seq<Doc>, test: Test, f: Body -> Body)
    requires forall body: Body :: f(body).Grant? == body.Grant? && (body.Grant? ==> f(body).userId == body.userId && f(body).created == body.created)
    ensures SameGrants(docs, Update(docs, test, f))
  {
    hide Update;
    UpdateAt(docs, test, f);
  }

  lemma SameIsSame(docs: seq<Doc>)
    ensures SameGrants(docs, docs)
  {
  }

  lemma OrderNext(settings: Settings, log: seq<Event>, births: seq<nat>, docs: seq<Doc>, clock: int, op: Op)
    requires |births| == |docs| && (forall n :: 0 <= n < |docs| ==> births[n] < |log|) && GrantsInOrder(log, births, docs, clock)
    requires !op.SweepAll? && clock <= Start(op) && ReadsInOrder(op)
    ensures var (after, out) := Do(settings, docs, op);
            var more := |after| == |docs| + 1;
            |after| == |docs| + (if IsCreation(op) && Stored(Event(op, out)) then 1 else 0)
            && GrantsInOrder(log + [Event(op, out)], if more then births + [|log|] else births, after, End(op))
  {
    hide Do, Update, Filter, GrantsInOrder, SameGrants, Gate, Passes, Revocable;
    var after, out := Do(settings, docs, op).0, Do(settings, docs, op).1;
    var e := Event(op, out);
    SameIsSame(docs);
    InOrderEnds(op);
    if IsRedemption(op) {
      RedemptionIs(settings, docs, op);
      UpdateIsSame(docs, Keyed(op.key), EffectOf(op));
      SameLength(docs, Update(docs, Keyed(op.key), EffectOf(op)));
      OrderSame(log, births, docs, clock, e, after, End(op));
    } else if IsAmendment(op) {
      AmendmentIs(settings, docs, op);
      UpdateIsSame(docs, Named(op), ChangeOf(op));
      SameLength(docs, after);
      OrderSame(log, births, docs, clock, e, after, End(op));
    } else if op.RevokeGrants? {
      RevokeIs(settings, docs, op);
      UpdateIsSame(docs, LiveGrant(op.user, op.now), MarkUsed);
      SameLength(docs, after);
      OrderSame(log, births, docs, clock, e, after, End(op));
    } else if op.CreateGrant? {
      CreateGrantIs(settings, docs, op);
      UpdateIsSame(docs, KeyIn(Revocable(settings, docs, op)), MarkUsed);
      SameLength(docs, Update(docs, KeyIn(Revocable(settings, docs, op)), MarkUsed));
      OrderMore(log, births, docs, clock, e, Update(docs, KeyIn(Revocable(settings, docs, op)), MarkUsed), NewDoc(settings, op), End(op));
    } else {
      CreationIs(settings, docs, op);
      CreationAnswers(settings, docs, op);
      if Stored(e) {
        OrderMore(log, births, docs, clock, e, docs, NewDoc(settings, op), End(op));
      } else {
        OrderSame(log, births, docs, clock, e, docs, End(op));
      }
    }
  }

  lemma SameLength(docs: seq<Doc>, after: seq<Doc>)
    requires SameGrants(docs, after)
    ensures |after| == |docs|
  {
  }

  lemma InOrderEnds(op: Op)
    requires ReadsInOrder(op) && !op.SweepAll?
    ensures Start(op) <= End(op)
  {
  }
}
