/**
 * What the operations on tokens, codes, grants and invites do to the documents, field by field, and what
 * they leave alone.
 */
module AuthEffects {
  import opened Prelude
  import opened RateLimit
  import opened Retention
  import opened AuthRuns
  import opened AuthSweeps
  import opened GrantCap
  import opened AuthLog
  import opened AuthAnswers
  import opened AuthGrants

  /** An operation that names a document changes no other; a creation adds one; and grants are only marked used. */
  lemma OthersUnchanged(settings: Settings, docs: seq<Doc>, op: Op)
    requires Distinct(docs) && !op.SweepAll?
    ensures var after := Do(settings, docs, op).0;
            && |docs| <= |after| <= |docs| + 1
            && (IsRedemption(op) || IsAmendment(op) || op.RevokeGrants? ==> |after| == |docs|)
            && (forall n :: 0 <= n < |docs| ==> after[n].key == docs[n].key)
            && (IsRedemption(op) || IsAmendment(op) ==> forall n :: 0 <= n < |docs| && docs[n].key != op.key ==> after[n] == docs[n])
            && (op.RevokeGrants? || op.CreateGrant? ==>
                  forall n :: 0 <= n < |docs| && after[n] != docs[n] ==>
                    docs[n].body.Grant? && docs[n].body.userId == op.user && !docs[n].body.used
                    && after[n].body == Grant(op.user, true, docs[n].body.created, docs[n].body.expiry))
            && (IsCreation(op) && !op.CreateGrant? ==> forall n :: 0 <= n < |docs| ==> after[n] == docs[n])
  {
    hide Do, Update, Filter, Gate, Passes, NewDoc, Stores;
    if IsRedemption(op) {
      RedemptionIs(settings, docs, op);
      UpdateAt(docs, Keyed(op.key), EffectOf(op));
    } else if IsAmendment(op) {
      AmendmentIs(settings, docs, op);
      UpdateAt(docs, Named(op), ChangeOf(op));
    } else if op.RevokeGrants? {
      RevokeIs(settings, docs, op);
      UpdateAt(docs, LiveGrant(op.user, op.now), MarkUsed);
    } else if op.CreateGrant? {
      CreateGrantIs(settings, docs, op);
      UpdateAt(docs, KeyIn(Revocable(settings, docs, op)), MarkUsed);
      forall n | 0 <= n < |docs| && docs[n].key in Revocable(settings, docs, op)
        ensures LiveGrant(op.user, op.t1)(docs[n])
      {
        RevocableIsLive(settings, docs, op, n);
      }
    } else {
      CreationIs(settings, docs, op);
    }
  }

  lemma RevocableIsLive(settings: Settings, docs: seq<Doc>, op: Op, n: nat)
    requires Distinct(docs) && op.CreateGrant? && n < |docs| && docs[n].key in Revocable(settings, docs, op)
    ensures LiveGrant(op.user, op.t1)(docs[n])
  {
    hide Filter, OldestFirst, LiveGrant;
    var live := Filter(LiveGrant(op.user, op.t1), docs);
    SortedLength(live);
    var i :| 0 <= i < |OldestFirst(live)| && i < |live| - (settings.maxGrants - 1) && OldestFirst(live)[i].key == docs[n].key;
    SortedIn(live, i);
    FilterElements(LiveGrant(op.user, op.t1), docs);
    var m :| 0 <= m < |live| && live[m] == OldestFirst(live)[i];
    var k :| 0 <= k < |docs| && docs[k] == live[m];
  }

  lemma SortedLength(grants: seq<Doc>)
    ensures |OldestFirst(grants)| == |grants|
  {
    OldestFirstCounts((doc: Doc) => true, grants);
    FilterAll((doc: Doc) => true, grants);
    FilterAll((doc: Doc) => true, OldestFirst(grants));
  }

  lemma {:induction false} InsertIn(doc: Doc, sorted: seq<Doc>)
    ensures forall i :: 0 <= i < |Insert(doc, sorted)| ==> Insert(doc, sorted)[i] == doc || Insert(doc, sorted)[i] in sorted
  {
    if Insert(doc, sorted) != [doc] + sorted {
      InsertIn(doc, sorted[1..]);
    }
  }

  lemma {:induction false} SortedIn(grants: seq<Doc>, i: nat)
    requires i < |OldestFirst(grants)|
    ensures OldestFirst(grants)[i] in grants
  {
    if grants != [] {
      InsertIn(grants[0], OldestFirst(grants[1..]));
      if OldestFirst(grants)[i] != grants[0] {
        var k :| 0 <= k < |OldestFirst(grants[1..])| && OldestFirst(grants[1..])[k] == OldestFirst(grants)[i];
        SortedIn(grants[1..], k);
      }
    }
  }

  // ----- what an operation does to the document it names, field by field

  /** What a stored document must be for the operation to accept it. */
  predicate Acceptable(op: Op, body: Body)
    requires IsRedemption(op)
  {
    match op
    case ValidateRefresh(_, forUser, userOk, now) =>
      body.Refresh? && For(forUser, body.userId) && body.enabled && now <= body.expiry && userOk
    case ExchangeRefresh(_, forUser, userOk, t1, t2) =>
      body.Refresh? && For(forUser, body.userId) && body.enabled && !body.exchangeUsed
      && t1 <= body.exchangeExpiry && t2 <= body.expiry && userOk
    case ValidateEmailCode(_, forUser, userOk, now) =>
      body.EmailCode? && For(forUser, body.userId) && !body.used && now <= body.expiry && userOk
    case ValidateVerification(_, forUser, forEmail, userOk, now) =>
      body.Verification? && For(forUser, body.userId) && For(forEmail, body.email) && !body.used && now <= body.expiry && userOk
    case ValidateLongLived(_, userOk, touch, writes, t1, _) =>
      body.LongLived? && body.enabled && (body.lapse.Some? && body.lapse.value != 0 ==> t1 <= body.lapse.value)
      && userOk && (touch ==> writes)
    case ConsumeGrant(_, secretOk, now) => body.Grant? && !body.used && now <= body.expiry && secretOk
    case ConsumeInvite(_, now) =>
      body.Invite? && now <= body.expiry && (body.usesOriginal.Some? ==> body.usesConsumed < body.usesOriginal.value)
  }

  /** What acceptance makes of it. */
  predicate Became(op: Op, body: Body, after: Body)
    requires IsRedemption(op)
  {
    match (op, body)
    case (ExchangeRefresh(_, _, _, _, _), Refresh(user, enabled, expiry, exchangeExpiry, _)) =>
      after == Refresh(user, enabled, expiry, exchangeExpiry, true)
    case (ValidateLongLived(_, _, true, _, _, t2), LongLived(user, enabled, created, updated, lapse, _)) =>
      after == LongLived(user, enabled, created, updated, lapse, Some(t2))
    case (ConsumeGrant(_, _, _), Grant(user, _, created, expiry)) => after == Grant(user, true, created, expiry)
    case (ConsumeInvite(_, _), Invite(expiry, uses, consumed)) => after == Invite(expiry, uses, consumed + 1)
    case _ => after == body
  }

  /** Accepted exactly if the document with the key is acceptable; then that one is rewritten, and no other. */
  ghost predicate Redeemed(op: Op, docs: seq<Doc>, after: seq<Doc>, yes: bool)
    requires IsRedemption(op)
  {
    && (yes <==> exists n :: 0 <= n < |docs| && docs[n].key == op.key && Acceptable(op, docs[n].body))
    && |after| == |docs|
    && forall n :: 0 <= n < |docs| ==>
         && after[n].key == docs[n].key
         && if yes && docs[n].key == op.key then Became(op, docs[n].body, after[n].body) else after[n] == docs[n]
  }

  lemma RedemptionMeans(settings: Settings, docs: seq<Doc>, op: Op)
    requires Distinct(docs) && IsRedemption(op)
    ensures Do(settings, docs, op).1.Accepted? && Redeemed(op, docs, Do(settings, docs, op).0, Do(settings, docs, op).1.yes)
  {
    hide Do, Update, Filter, Passes, OkOf, EffectOf, Acceptable, Became;
    RedemptionIs(settings, docs, op);
    PassesIff(docs, op.key, OkOf(op));
    UpdateAt(docs, Keyed(op.key), EffectOf(op));
    forall n | 0 <= n < |docs|
      ensures OkOf(op)(docs[n].body) <==> Acceptable(op, docs[n].body)
    {
      OkIsAcceptable(op, docs[n].body);
    }
    if n :| 0 <= n < |docs| && docs[n].key == op.key && Acceptable(op, docs[n].body) {
      EffectIsBecoming(op, docs[n].body);
    }
  }

  lemma OkIsAcceptable(op: Op, body: Body)
    requires IsRedemption(op)
    ensures OkOf(op)(body) <==> Acceptable(op, body)
  {
  }

  lemma EffectIsBecoming(op: Op, body: Body)
    requires IsRedemption(op) && Acceptable(op, body)
    ensures Became(op, body, EffectOf(op)(body))
  {
  }

  /** The document an amendment is for, and what it makes of it. */
  predicate Amends(op: Op, body: Body, after: Body)
    requires IsAmendment(op)
  {
    match (op, body)
    case (MarkCode(_, _), EmailCode(user, _, stamped, expiry)) => after == EmailCode(user, true, stamped, expiry)
    case (MarkCode(_, _), Verification(user, email, _, stamped, expiry)) => after == Verification(user, email, true, stamped, expiry)
    case (InvalidateRefresh(_, _), Refresh(user, _, expiry, exchangeExpiry, used)) =>
      after == Refresh(user, false, expiry, exchangeExpiry, used)
    case (UpdateLongLived(_, now), LongLived(user, enabled, created, _, lapse, lastUsed)) =>
      after == LongLived(user, enabled, created, Some(now), lapse, lastUsed)
    case (RevokeLongLived(_, now), LongLived(user, _, created, _, lapse, lastUsed)) =>
      after == LongLived(user, false, created, Some(now), lapse, lastUsed)
    case _ => false
  }

  /** The kinds of document the operation is for. */
  predicate Applies(op: Op, body: Body)
    requires IsAmendment(op)
  {
    match op
    case MarkCode(_, _) => body.EmailCode? || body.Verification?
    case InvalidateRefresh(_, _) => body.Refresh?
    case _ => body.LongLived?
  }

  /** Found exactly if the document with the key is of its kind; then that one is rewritten, and no other. */
  ghost predicate Amended(op: Op, docs: seq<Doc>, after: seq<Doc>, found: bool)
    requires IsAmendment(op)
  {
    && (found <==> exists n :: 0 <= n < |docs| && docs[n].key == op.key && Applies(op, docs[n].body))
    && |after| == |docs|
    && forall n :: 0 <= n < |docs| ==>
         && after[n].key == docs[n].key
         && if found && docs[n].key == op.key then Amends(op, docs[n].body, after[n].body) else after[n] == docs[n]
  }

  lemma AmendmentMeans(settings: Settings, docs: seq<Doc>, op: Op)
    requires Distinct(docs) && IsAmendment(op)
    ensures Do(settings, docs, op).1.Found? && Amended(op, docs, Do(settings, docs, op).0, Do(settings, docs, op).1.present)
  {
    hide Do, Update, Filter, ChangeOf, Amends;
    AmendmentIs(settings, docs, op);
    FoundIff(docs, Named(op));
    UpdateAt(docs, Named(op), ChangeOf(op));
    forall n | 0 <= n < |docs| && Named(op)(docs[n])
      ensures Amends(op, docs[n].body, ChangeOf(op)(docs[n].body))
    {
      ChangeAmends(op, docs[n]);
    }
  }

  lemma ChangeAmends(op: Op, doc: Doc)
    requires IsAmendment(op) && Named(op)(doc)
    ensures Amends(op, doc.body, ChangeOf(op)(doc.body))
  {
  }

  // ----- what the cap revokes

  /**
   * Enforcing the cap marks live grants of the user only, so many that one more stays within the cap, and
   * none that is younger than a live one it leaves.
   */
  ghost predicate CapEnforced(docs: seq<Doc>, after: seq<Doc>, user: nat, now: int, cap: nat) {
    && |after| == |docs|
    && |Filter(LiveGrant(user, now), after)| == Min(|Filter(LiveGrant(user, now), docs)|, cap - 1)
    && (forall n :: 0 <= n < |docs| && after[n] != docs[n] ==>
          LiveGrant(user, now)(docs[n])
          && after[n] == Doc(docs[n].key, Grant(user, true, docs[n].body.created, docs[n].body.expiry)))
    && forall m, n :: 0 <= m < |docs| && 0 <= n < |docs| && after[m] != docs[m] && LiveGrant(user, now)(after[n]) ==>
         docs[m].body.created <= docs[n].body.created
  }

  lemma FilterDistinct(test: Test, docs: seq<Doc>)
    requires Distinct(docs)
    ensures Distinct(Filter(test, docs))
  {
    hide Filter;
    var places := FilterOrigins(test, docs);
  }

  /** Sorting keeps keys distinct. */
  lemma SortedDistinct(grants: seq<Doc>)
    requires Distinct(grants)
    ensures Distinct(OldestFirst(grants))
  {
    hide Filter, OldestFirst;
    var sorted := OldestFirst(grants);
    forall i, j | 0 <= i < j < |sorted|
      ensures sorted[i].key != sorted[j].key
    {
      var key := sorted[i].key;
      KeyedOnce(grants, key);
      OldestFirstCounts(Keyed(key), grants);
      SplitAt(Keyed(key), sorted, i);
      FoundIff(sorted[i + 1..], Keyed(key));
      assert sorted[i + 1..][j - i - 1] == sorted[j];
    }
  }

  lemma SortedHas(grants: seq<Doc>, n: nat) returns (j: nat)
    requires Distinct(grants) && n < |grants|
    ensures j < |OldestFirst(grants)| && OldestFirst(grants)[j] == grants[n]
  {
    hide Filter, OldestFirst;
    var sorted, key := OldestFirst(grants), grants[n].key;
    FoundIff(grants, Keyed(key));
    OldestFirstCounts(Keyed(key), grants);
    FoundIff(sorted, Keyed(key));
    j :| 0 <= j < |sorted| && sorted[j].key == key;
    SortedIn(grants, j);
  }

  /** The live grants that stay live are those behind the overflow. */
  lemma OverflowCount(live: seq<Doc>, cap: nat)
    requires Distinct(live) && cap >= 1
    ensures |Filter((doc: Doc) => doc.key !in Overflow(live, cap), live)| == Min(|live|, cap - 1)
  {
    hide Filter, OldestFirst, Distinct;
    var sorted, keys := OldestFirst(live), Overflow(live, cap);
    var others := (doc: Doc) => doc.key !in keys;
    var k := Max(0, |live| - (cap - 1));
    SortedLength(live);
    SortedDistinct(live);
    OldestFirstCounts(others, live);
    assert sorted == sorted[..k] + sorted[k..];
    FilterAppend(others, sorted[..k], sorted[k..]);
    forall i | 0 <= i < k
      ensures !others(sorted[..k][i])
    {
      assert sorted[i].key in keys;
    }
    FilterNone(others, sorted[..k]);
    BehindIsKept(sorted, live, cap, k);
    FilterAll(others, sorted[k..]);
  }

  lemma BehindIsKept(sorted: seq<Doc>, live: seq<Doc>, cap: nat, k: nat)
    requires sorted == OldestFirst(live) && Distinct(sorted) && |sorted| == |live| && cap >= 1 && k == Max(0, |live| - (cap - 1))
    ensures forall i :: 0 <= i < |sorted[k..]| ==> sorted[k..][i].key !in Overflow(live, cap)
  {
    hide OldestFirst;
  }

  /** A marked grant is one of those given, and no younger than one that is not marked. */
  lemma MarkedComesBefore(live: seq<Doc>, cap: nat, key: nat) returns (m: nat)
    requires Distinct(live) && AllGrants(live) && cap >= 1 && key in Overflow(live, cap)
    ensures m < |live| && live[m].key == key
    ensures forall n :: 0 <= n < |live| && live[n].key !in Overflow(live, cap) ==>
                          live[m].body.created <= live[n].body.created
  {
    hide OldestFirst, Distinct;
    var sorted := OldestFirst(live);
    OldestFirstSorts(live);
    var i :| 0 <= i < |sorted| && i < |live| - (cap - 1) && sorted[i].key == key;
    SortedIn(live, i);
    m :| 0 <= m < |live| && live[m] == sorted[i];
    forall n | 0 <= n < |live| && live[n].key !in Overflow(live, cap)
      ensures live[m].body.created <= live[n].body.created
    {
      var j := SortedHas(live, n);
      assert i < j;
    }
  }

  /** Who is marked, and who comes before whom. */
  lemma MarkedIsOldest(docs: seq<Doc>, user: nat, now: int, cap: nat, m: nat, n: nat)
    requires Distinct(docs) && cap >= 1 && m < |docs| && n < |docs|
    requires docs[m].key in Overflow(Filter(LiveGrant(user, now), docs), cap)
    ensures LiveGrant(user, now)(docs[m])
    ensures LiveGrant(user, now)(docs[n]) && docs[n].key !in Overflow(Filter(LiveGrant(user, now), docs), cap) ==>
              docs[m].body.created <= docs[n].body.created
  {
    hide Filter, Overflow;
    var live := Filter(LiveGrant(user, now), docs);
    FilterElements(LiveGrant(user, now), docs);
    FilterDistinct(LiveGrant(user, now), docs);
    var i := MarkedComesBefore(live, cap, docs[m].key);
    var k := FilterOrigin(LiveGrant(user, now), docs, i);
    assert docs[m] == live[i];
    if LiveGrant(user, now)(docs[n]) && docs[n].key !in Overflow(live, cap) {
      SplitAt(LiveGrant(user, now), docs, n);
    }
  }

  lemma CapMeans(docs: seq<Doc>, user: nat, now: int, cap: nat)
    requires Distinct(docs) && cap >= 1
    ensures var keys := Overflow(Filter(LiveGrant(user, now), docs), cap);
            CapEnforced(docs, Update(docs, KeyIn(keys), MarkUsed), user, now, cap)
  {
    hide Filter, Update, Overflow, Distinct;
    var live := Filter(LiveGrant(user, now), docs);
    var keys := Overflow(live, cap);
    var after := Update(docs, KeyIn(keys), MarkUsed);
    UpdateAt(docs, KeyIn(keys), MarkUsed);
    LiveAfterMarking(docs, keys, user, now);
    FilterDistinct(LiveGrant(user, now), docs);
    OverflowCount(live, cap);
    forall m, n | 0 <= m < |docs| && 0 <= n < |docs| && docs[m].key in keys
      ensures LiveGrant(user, now)(docs[m])
      ensures LiveGrant(user, now)(docs[n]) && docs[n].key !in keys ==> docs[m].body.created <= docs[n].body.created
    {
      MarkedIsOldest(docs, user, now, cap, m, n);
    }
    forall n | 0 <= n < |docs| && after[n] != docs[n]
      ensures docs[n].key in keys && LiveGrant(user, now)(docs[n])
    {
      assert docs[n].key in keys;
    }
  }

  // ----- what a revocation leaves

  /** Exactly the user's live grants were marked used. */
  ghost predicate AllWithdrawn(docs: seq<Doc>, after: seq<Doc>, user: nat, now: int) {
    && |after| == |docs|
    && forall n :: 0 <= n < |docs| ==>
         var body := docs[n].body;
         if body.Grant? && body.userId == user && !body.used && now <= body.expiry
         then after[n] == Doc(docs[n].key, Grant(user, true, body.created, body.expiry)) else after[n] == docs[n]
  }

  lemma WithdrawalMeans(docs: seq<Doc>, user: nat, now: int)
    ensures AllWithdrawn(docs, Update(docs, LiveGrant(user, now), MarkUsed), user, now)
    ensures Filter(LiveGrant(user, now), Update(docs, LiveGrant(user, now), MarkUsed)) == []
  {
    hide Filter, Update;
    UpdateAt(docs, LiveGrant(user, now), MarkUsed);
    FilterNone(LiveGrant(user, now), Update(docs, LiveGrant(user, now), MarkUsed));
  }
}
