/**
 * The methods of emailReset.ts, verificationChallenges.ts, refreshTokens.ts, longLivedTokens.ts and
 * downloadGrants.ts (api/src/couchdb/) on a store they write in place, each proved to take the
 * step of `AuthRuns.Do`, and to do to the stored documents what `AuthEffects` says field by field. View
 * queries and `put` are the only access to the store.
 */
module AuthStore {
  import opened Prelude
  import opened RateLimit
  import opened Retention
  import opened AuthRuns
  import opened AuthSweeps
  import opened GrantCap
  import opened AuthLog
  import opened AuthAnswers
  import opened AuthEffects

  /** The result of `consumeDownloadGrant`. */
  datatype Consumed = Ok | InvalidGrant | UsedGrant | ExpiredGrant

  /** Writing back one document read by its key is an update by that key. */
  lemma {:induction false} WriteBack(docs: seq<Doc>, key: nat, body: Body, f: Body -> Body)
    requires |Filter(Keyed(key), docs)| == 1 && body == f(Filter(Keyed(key), docs)[0].body)
    ensures Update(docs, Keyed(key), (any: Body) => body) == Update(docs, Keyed(key), f)
  {
    if docs[0].key == key {
      assert Filter(Keyed(key), docs)[1..] == Filter(Keyed(key), docs[1..]) == [];
      NoMatch(docs[1..], key, (any: Body) => body);
      NoMatch(docs[1..], key, f);
    } else {
      assert Filter(Keyed(key), docs) == Filter(Keyed(key), docs[1..]);
      WriteBack(docs[1..], key, body, f);
    }
  }

  lemma {:induction false} NoMatch(docs: seq<Doc>, key: nat, f: Body -> Body)
    requires Filter(Keyed(key), docs) == []
    ensures Update(docs, Keyed(key), f) == docs
  {
    if docs != [] {
      NoMatch(docs[1..], key, f);
    }
  }

  /** Writing back what was read changes nothing. */
  lemma {:induction false} UpdateSame(docs: seq<Doc>, test: Test)
    ensures Update(docs, test, Same) == docs
  {
    if docs != [] {
      UpdateSame(docs[1..], test);
    }
  }

  /** Marking one more grant, by writing back the document read earlier. */
  lemma MarkOneMore(docs: seq<Doc>, marked: set<nat>, grant: Doc)
    requires Distinct(docs) && grant in docs
    ensures Update(Update(docs, KeyIn(marked), MarkUsed), Keyed(grant.key), (any: Body) => MarkUsed(grant.body))
         == Update(docs, KeyIn(marked + {grant.key}), MarkUsed)
  {
    hide Update;
    var some := Update(docs, KeyIn(marked), MarkUsed);
    UpdateAt(docs, KeyIn(marked), MarkUsed);
    UpdateAt(docs, KeyIn(marked + {grant.key}), MarkUsed);
    UpdateAt(some, Keyed(grant.key), (any: Body) => MarkUsed(grant.body));
    var left := Update(some, Keyed(grant.key), (any: Body) => MarkUsed(grant.body));
    var k :| 0 <= k < |docs| && docs[k] == grant;
    forall i | 0 <= i < |docs|
      ensures left[i] == Update(docs, KeyIn(marked + {grant.key}), MarkUsed)[i]
    {
      assert docs[i].key == grant.key ==> i == k;
      assert some[i].key == docs[i].key;
    }
  }

  /** Tests that agree on the documents update alike. */
  lemma {:induction false} UpdateCongruence(docs: seq<Doc>, p: Test, q: Test, f: Body -> Body)
    requires forall i :: 0 <= i < |docs| ==> p(docs[i]) == q(docs[i])
    ensures Update(docs, p, f) == Update(docs, q, f)
  {
    UpdateAt(docs, p, f);
    UpdateAt(docs, q, f);
  }

  /** The rows a view emits for a secret: documents of the view's kind. */
  function ViewRow(key: nat, kind: Body -> bool): Test {
    (doc: Doc) => doc.key == key && kind(doc.body)
  }

  lemma {:induction false} ViewIsLookup(docs: seq<Doc>, key: nat, kind: Body -> bool)
    requires Distinct(docs)
    ensures var all, rows := Filter(Keyed(key), docs), Filter(ViewRow(key, kind), docs);
            |all| <= 1 && rows == if all != [] && kind(all[0].body) then all else []
  {
    KeyedOnce(docs, key);
    FilterAbsorb(Keyed(key), ViewRow(key, kind), docs);
    if Filter(Keyed(key), docs) != [] {
      assert Filter(Keyed(key), docs) == [Filter(Keyed(key), docs)[0]];
      FilterElements(Keyed(key), docs);
    }
  }

  /** The rows of the views by user. */
  function CodesOf(user: nat): Test {
    (doc: Doc) => doc.body.EmailCode? && doc.body.userId == user
  }

  function ChallengesOf(user: nat): Test {
    (doc: Doc) => doc.body.Verification? && doc.body.userId == user
  }

  lemma {:induction false} CodesHoldTimes(docs: seq<Doc>, user: nat)
    ensures Times(Filter(CodesOf(user), docs), EmailUser(user)) == Times(docs, EmailUser(user))
  {
    if docs != [] {
      CodesHoldTimes(docs[1..], user);
      if CodesOf(user)(docs[0]) {
        assert Filter(CodesOf(user), docs)[1..] == Filter(CodesOf(user), docs[1..]);
      } else {
        assert Filter(CodesOf(user), docs) == Filter(CodesOf(user), docs[1..]);
      }
    }
  }

  lemma {:induction false} ChallengesHoldTimes(docs: seq<Doc>, user: nat, email: nat)
    ensures Times(Filter(ChallengesOf(user), docs), Address(user, email)) == Times(docs, Address(user, email))
  {
    if docs != [] {
      ChallengesHoldTimes(docs[1..], user, email);
      if ChallengesOf(user)(docs[0]) {
        assert Filter(ChallengesOf(user), docs)[1..] == Filter(ChallengesOf(user), docs[1..]);
      } else {
        assert Filter(ChallengesOf(user), docs) == Filter(ChallengesOf(user), docs[1..]);
      }
    }
  }

  /** Refused until `at` exactly when the window is full, `at` ends the cooldown after the latest creation, and has not passed. */
  ghost predicate Explained(limiter: Limiter, times: seq<int>, t1: int, t2: int, decision: Decision) {
    forall at :: decision == Refused(at) <==>
      && |Filter(After(t1 - limiter.window), times)| >= limiter.maxAttempts
      && IsLatest(times, at - limiter.cooldown) && t2 <= at
  }

  lemma ExplainCheck(limiter: Limiter, times: seq<int>, t1: int, t2: int)
    requires limiter.maxAttempts >= 1
    ensures Explained(limiter, times, t1, t2, Check(limiter, times, t1, t2))
  {
    hide Check, Filter;
    forall at
      ensures Check(limiter, times, t1, t2) == Refused(at)
         <==> (|Filter(After(t1 - limiter.window), times)| >= limiter.maxAttempts
               && IsLatest(times, at - limiter.cooldown) && t2 <= at)
    {
      CheckMeaning(limiter, times, t1, t2, at);
    }
  }

  lemma NoTimes(subject: Subject, threshold: int)
    ensures Filter(After(threshold), Times([], subject)) == []
  {
  }

  /** One more row adds its creation time, if it is recent. */
  lemma OneMoreTime(rows: seq<Doc>, i: nat, subject: Subject, threshold: int)
    requires i < |rows|
    ensures Filter(After(threshold), Times(rows[..i + 1], subject))
         == Filter(After(threshold), Times(rows[..i], subject))
            + (var time := Time(rows[i], subject); if time != [] && time[0] > threshold then time else [])
  {
    assert rows[..i + 1] == rows[..i] + [rows[i]];
    TimesAppend(rows[..i], rows[i], subject);
    FilterAppend(After(threshold), Times(rows[..i], subject), Time(rows[i], subject));
  }

  /** The `reduce` over the recent creation times. */
  method Reduce(recent: seq<int>) returns (latest: int)
    requires recent != []
    ensures latest == MostRecent(recent[0], recent) && IsLatest(recent, latest)
  {
    latest := recent[0];
    MostRecentBounds(recent[0], recent);
    for i := 0 to |recent|
      invariant MostRecent(latest, recent[i..]) == MostRecent(recent[0], recent)
    {
      assert recent[i..][1..] == recent[i + 1..];
      if recent[i] > latest {
        latest := recent[i];
      }
    }
  }

  class Store {
    var docs: seq<Doc>
    const settings: Settings

    constructor (settings: Settings)
      ensures docs == [] && this.settings == settings
    {
      this.docs, this.settings := [], settings;
    }

    /** A view query, with the documents. */
    method Query(test: Test) returns (rows: seq<Doc>)
      ensures rows == Filter(test, docs)
    {
      rows := Filter(test, docs);
    }

    method Put(doc: Doc)
      modifies this`docs
      ensures docs == Update(old(docs), Keyed(doc.key), (any: Body) => doc.body)
    {
      docs := Update(docs, Keyed(doc.key), (any: Body) => doc.body);
    }

    method Insert(doc: Doc)
      modifies this`docs
      ensures docs == old(docs) + [doc]
    {
      docs := docs + [doc];
    }

    // ----- email codes

    /**
     * `checkCanCreateEmailCode`. A refusal means that the user's codes fill the window, and names the
     * end of the cooldown after the latest of them, which has not passed.
     */
    method CheckCanCreateEmailCode(user: nat, t1: int, t2: int) returns (decision: Decision)
      ensures decision == Gate(settings, docs, EmailUser(user), t1, t2)
      ensures settings.limiterEnabled ==> Explained(EMAIL_LIMITER, Times(docs, EmailUser(user)), t1, t2, decision)
    {
      hide Filter, Times, MostRecent, Explained;
      ExplainCheck(EMAIL_LIMITER, Times(docs, EmailUser(user)), t1, t2);
      if !settings.limiterEnabled {
        return Allowed;
      }
      var timeThreshold := t1 - EMAIL_LIMITER.window;
      NoTimes(EmailUser(user), timeThreshold);
      var codes := Query(CodesOf(user));
      CodesHoldTimes(docs, user);
      FilterElements(CodesOf(user), docs);
      var recent := [];
      assert codes[..0] == [];
      for i := 0 to |codes|
        invariant recent == Filter(After(timeThreshold), Times(codes[..i], EmailUser(user)))
      {
        OneMoreTime(codes, i, EmailUser(user), timeThreshold);
        if Stamp(codes[i].body.stamped) > timeThreshold {
          recent := recent + [Stamp(codes[i].body.stamped)];
        }
      }
      assert codes[..|codes|] == codes;
      if |recent| < EMAIL_LIMITER.maxAttempts {
        return Allowed;
      }
      if |recent| == 0 {
        return Allowed;
      }
      var mostRecent := Reduce(recent);
      var cooldownEndsAt := mostRecent + EMAIL_LIMITER.cooldown;
      return if t2 > cooldownEndsAt then Allowed else Refused(cooldownEndsAt);
    }

    /** `createNewEmailCode`: throws, storing nothing, exactly when the user's codes fill the window and the cooldown runs. */
    method CreateNewEmailCode(key: nat, user: nat, t1: int, t2: int, t3: int, t4: int) returns (decision: Decision)
      modifies this`docs
      ensures settings.limiterEnabled ==> Explained(EMAIL_LIMITER, Times(old(docs), EmailUser(user)), t1, t2, decision)
      ensures docs == old(docs) + if decision.Allowed? then [Doc(key, EmailCode(user, false, Some(t4), t3 + settings.emailLifetime))] else []
      ensures (docs, Limited(decision)) == Do(settings, old(docs), RequestEmailCode(key, user, t1, t2, t3, t4))
    {
      decision := CheckCanCreateEmailCode(user, t1, t2);
      if decision.Refused? {
        return;
      }
      Insert(Doc(key, EmailCode(user, false, Some(t4), t3 + settings.emailLifetime)));
    }

    /** `validateEmailCode`: true for `valid`. */
    method ValidateEmailCode(key: nat, forUser: Option<nat>, userOk: bool, now: int) returns (valid: bool)
      requires Distinct(docs)
      ensures (docs, Accepted(valid)) == Do(settings, docs, Op.ValidateEmailCode(key, forUser, userOk, now))
      ensures Redeemed(Op.ValidateEmailCode(key, forUser, userOk, now), docs, docs, valid)
    {
      hide Filter, Update, Distinct;
      RedemptionMeans(settings, docs, Op.ValidateEmailCode(key, forUser, userOk, now));
      ViewIsLookup(docs, key, (body: Body) => body.EmailCode?);
      UpdateSame(docs, Keyed(key));
      var rows := Query(ViewRow(key, (body: Body) => body.EmailCode?));
      if |rows| == 0 {
        return false;
      }
      var code := rows[0].body;
      if forUser.Some? && code.userId != forUser.value {
        return false;
      }
      if code.used {
        return false;
      }
      if code.expiry < now {
        return false;
      }
      return userOk;
    }

    // ----- verification challenges

    /** `checkCanCreateVerificationChallenge`: the same for a user's challenges for one address. */
    method CheckCanCreateVerificationChallenge(user: nat, email: nat, t1: int, t2: int) returns (decision: Decision)
      ensures decision == Gate(settings, docs, Address(user, email), t1, t2)
      ensures settings.limiterEnabled ==> Explained(VERIFICATION_LIMITER, Times(docs, Address(user, email)), t1, t2, decision)
    {
      hide Filter, Times, MostRecent, Explained;
      ExplainCheck(VERIFICATION_LIMITER, Times(docs, Address(user, email)), t1, t2);
      if !settings.limiterEnabled {
        return Allowed;
      }
      var timeThreshold := t1 - VERIFICATION_LIMITER.window;
      NoTimes(Address(user, email), timeThreshold);
      var challenges := Query(ChallengesOf(user));
      ChallengesHoldTimes(docs, user, email);
      FilterElements(ChallengesOf(user), docs);
      var recent := [];
      assert challenges[..0] == [];
      for i := 0 to |challenges|
        invariant recent == Filter(After(timeThreshold), Times(challenges[..i], Address(user, email)))
      {
        OneMoreTime(challenges, i, Address(user, email), timeThreshold);
        var body := challenges[i].body;
        if body.email == email && body.stamped.Some? && body.stamped.value > timeThreshold {
          recent := recent + [body.stamped.value];
        }
      }
      assert challenges[..|challenges|] == challenges;
      if |recent| < VERIFICATION_LIMITER.maxAttempts {
        return Allowed;
      }
      var mostRecent := Reduce(recent);
      var cooldownEndsAt := mostRecent + VERIFICATION_LIMITER.cooldown;
      return if t2 > cooldownEndsAt then Allowed else Refused(cooldownEndsAt);
    }

    /** `createVerificationChallenge`, which asks no limiter. */
    method CreateVerificationChallenge(key: nat, user: nat, email: nat, t1: int, t2: int)
      modifies this`docs
      ensures docs == Do(settings, old(docs), CreateVerification(key, user, email, t1, t2)).0
    {
      Insert(Doc(key, Verification(user, email, false, Some(t2), t1 + VERIFICATION_LIFETIME)));
    }

    /** The API's request for a challenge: the check, then the creation when allowed. */
    method RequestVerification(key: nat, user: nat, email: nat, t1: int, t2: int, t3: int, t4: int) returns (decision: Decision)
      modifies this`docs
      ensures settings.limiterEnabled ==>
        Explained(VERIFICATION_LIMITER, Times(old(docs), Address(user, email)), t1, t2, decision)
      ensures docs == old(docs)
                      + if decision.Allowed? then [Doc(key, Verification(user, email, false, Some(t4), t3 + 24 * HOUR))] else []
      ensures (docs, Limited(decision)) == Do(settings, old(docs), Op.RequestVerification(key, user, email, t1, t2, t3, t4))
    {
      decision := CheckCanCreateVerificationChallenge(user, email, t1, t2);
      if decision.Refused? {
        return;
      }
      CreateVerificationChallenge(key, user, email, t3, t4);
    }

    /** `validateVerificationChallenge`. */
    method ValidateVerification(key: nat, forUser: Option<nat>, forEmail: Option<nat>, userOk: bool, now: int)
      returns (valid: bool)
      requires Distinct(docs)
      ensures (docs, Accepted(valid)) == Do(settings, docs, Op.ValidateVerification(key, forUser, forEmail, userOk, now))
      ensures Redeemed(Op.ValidateVerification(key, forUser, forEmail, userOk, now), docs, docs, valid)
    {
      hide Filter, Update, Distinct;
      RedemptionMeans(settings, docs, Op.ValidateVerification(key, forUser, forEmail, userOk, now));
      ViewIsLookup(docs, key, (body: Body) => body.Verification?);
      UpdateSame(docs, Keyed(key));
      var rows := Query(ViewRow(key, (body: Body) => body.Verification?));
      if |rows| == 0 {
        return false;
      }
      var challenge := rows[0].body;
      if forUser.Some? && challenge.userId != forUser.value {
        return false;
      }
      if forEmail.Some? && challenge.email != forEmail.value {
        return false;
      }
      if challenge.used {
        return false;
      }
      if challenge.expiry < now {
        return false;
      }
      return userOk;
    }

    /** `markCodeAsUsed` and `consumeVerificationChallenge`: false for the not-found exception. */
    method MarkCode(key: nat, now: int) returns (found: bool)
      requires Distinct(docs)
      modifies this`docs
      ensures (docs, Found(found)) == Do(settings, old(docs), Op.MarkCode(key, now))
      ensures Amended(Op.MarkCode(key, now), old(docs), docs, found)
    {
      AmendmentMeans(settings, docs, Op.MarkCode(key, now));
      var kind := (body: Body) => body.EmailCode? || body.Verification?;
      ViewIsLookup(docs, key, kind);
      FilterCongruence(ViewRow(key, kind), CodeKeyed(key), docs);
      var rows := Query(ViewRow(key, kind));
      found := |rows| > 0;
      if !found {
        NothingToUpdate(docs, CodeKeyed(key), MarkUsed);
        return;
      }
      FilterElements(CodeKeyed(key), docs);
      assert CodeKeyed(key)(rows[0]);
      WriteBack(docs, key, MarkUsed(rows[0].body), MarkUsed);
      OnlyMatch(docs, key, CodeKeyed(key), MarkUsed);
      Put(Doc(rows[0].key, MarkUsed(rows[0].body)));
    }

    // ----- refresh tokens

    /** `validateRefreshToken`. */
    method ValidateRefreshToken(key: nat, forUser: Option<nat>, userOk: bool, now: int) returns (valid: bool)
      requires Distinct(docs)
      ensures (docs, Accepted(valid)) == Do(settings, docs, ValidateRefresh(key, forUser, userOk, now))
      ensures Redeemed(ValidateRefresh(key, forUser, userOk, now), docs, docs, valid)
    {
      hide Filter, Update, Distinct;
      RedemptionMeans(settings, docs, ValidateRefresh(key, forUser, userOk, now));
      ViewIsLookup(docs, key, (body: Body) => body.Refresh?);
      UpdateSame(docs, Keyed(key));
      var rows := Query(ViewRow(key, (body: Body) => body.Refresh?));
      if |rows| == 0 {
        return false;
      }
      var token := rows[0].body;
      if forUser.Some? && token.userId != forUser.value {
        return false;
      }
      if !token.enabled {
        return false;
      }
      if token.expiry < now {
        return false;
      }
      return userOk;
    }

    /** `consumeExchangeTokenForRefreshToken`, over a view without used exchange tokens. */
    method ConsumeExchangeToken(key: nat, forUser: Option<nat>, userOk: bool, t1: int, t2: int) returns (valid: bool)
      requires Distinct(docs)
      modifies this`docs
      ensures (docs, Accepted(valid)) == Do(settings, old(docs), ExchangeRefresh(key, forUser, userOk, t1, t2))
      ensures Redeemed(ExchangeRefresh(key, forUser, userOk, t1, t2), old(docs), docs, valid)
    {
      hide Filter, Update, Distinct;
      RedemptionMeans(settings, docs, ExchangeRefresh(key, forUser, userOk, t1, t2));
      ViewIsLookup(docs, key, (body: Body) => body.Refresh? && !body.exchangeUsed);
      var rows := Query(ViewRow(key, (body: Body) => body.Refresh? && !body.exchangeUsed));
      if |rows| == 0 {
        return false;
      }
      var token := rows[0].body;
      if forUser.Some? && token.userId != forUser.value {
        return false;
      }
      if !token.enabled {
        return false;
      }
      if token.exchangeExpiry < t1 {
        return false;
      }
      if token.expiry < t2 {
        return false;
      }
      if !userOk {
        return false;
      }
      FilterElements(Keyed(key), docs);
      assert Keyed(key)(rows[0]);
      WriteBack(docs, key, UseExchange(token), UseExchange);
      Put(Doc(rows[0].key, UseExchange(token)));
      return true;
    }

    /** `invalidateToken`: false for the not-found exception. */
    method InvalidateToken(key: nat, now: int) returns (found: bool)
      requires Distinct(docs)
      modifies this`docs
      ensures (docs, Found(found)) == Do(settings, old(docs), InvalidateRefresh(key, now))
      ensures Amended(InvalidateRefresh(key, now), old(docs), docs, found)
    {
      hide Update, Distinct, Amended;
      AmendmentMeans(settings, docs, InvalidateRefresh(key, now));
      var kind := (body: Body) => body.Refresh?;
      var rows := Query(ViewRow(key, kind));
      FilterCongruence(ViewRow(key, kind), RefreshKeyed(key), docs);
      found := |rows| > 0;
      if !found {
        NothingToUpdate(docs, RefreshKeyed(key), Disable);
        return;
      }
      ViewIsLookup(docs, key, kind);
      FilterElements(RefreshKeyed(key), docs);
      assert RefreshKeyed(key)(rows[0]);
      var token := rows[0].body;
      var disabled := Refresh(token.userId, false, token.expiry, token.exchangeExpiry, token.exchangeUsed);
      WriteBack(docs, key, disabled, Disable);
      OnlyMatch(docs, key, RefreshKeyed(key), Disable);
      Put(Doc(rows[0].key, disabled));
    }

    // ----- long-lived tokens

    /** `createNewLongLivedToken`: false for the invalid-expiry exception. */
    method CreateNewLongLivedToken(key: nat, user: nat, lapse: Option<int>, t1: int, t2: int, t3: int) returns (created: bool)
      modifies this`docs
      ensures (docs, Accepted(created)) == Do(settings, old(docs), CreateLongLived(key, user, lapse, t1, t2, t3))
      ensures created <==> match (lapse, settings.maxLongLivedMs)
                           case (None, None) => true
                           case (None, Some(_)) => false
                           case (Some(at), None) => t1 < at
                           case (Some(at), Some(most)) => t2 < at <= t1 + most
      ensures docs == old(docs) + if created then [Doc(key, LongLived(user, true, t3, Some(t3), lapse, None))] else []
    {
      if lapse.None? {
        created := settings.maxLongLivedMs.None?;
      } else if settings.maxLongLivedMs.None? {
        created := lapse.value > t1;
      } else {
        var maxAllowed := t1 + settings.maxLongLivedMs.value;
        created := lapse.value > t2 && lapse.value <= maxAllowed;
      }
      if created {
        Insert(Doc(key, LongLived(user, true, t3, Some(t3), lapse, None)));
      }
    }

    /** `updateLongLivedToken` and `revokeLongLivedToken`: false for an exception, with no such document or one of another kind. */
    method AmendLongLivedToken(key: nat, revoke: bool, now: int) returns (found: bool)
      requires Distinct(docs)
      modifies this`docs
      ensures (docs, Found(found)) == Do(settings, old(docs), if revoke then RevokeLongLived(key, now) else UpdateLongLived(key, now))
      ensures Amended(if revoke then RevokeLongLived(key, now) else UpdateLongLived(key, now), old(docs), docs, found)
    {
      hide Update, Distinct, Amended;
      AmendmentMeans(settings, docs, if revoke then RevokeLongLived(key, now) else UpdateLongLived(key, now));
      var kind := (body: Body) => body.LongLived?;
      var rows := Query(ViewRow(key, kind));
      FilterCongruence(ViewRow(key, kind), LongLivedKeyed(key), docs);
      found := |rows| > 0;
      if !found {
        NothingToUpdate(docs, LongLivedKeyed(key), if revoke then Revoke(now) else Touch(now));
        return;
      }
      ViewIsLookup(docs, key, kind);
      FilterElements(LongLivedKeyed(key), docs);
      assert LongLivedKeyed(key)(rows[0]);
      var token := rows[0].body;
      var amended := if revoke then LongLived(token.userId, false, token.created, Some(now), token.lapse, token.lastUsed)
                     else token.(updated := Some(now));
      WriteBack(docs, key, amended, if revoke then Revoke(now) else Touch(now));
      OnlyMatch(docs, key, LongLivedKeyed(key), if revoke then Revoke(now) else Touch(now));
      Put(Doc(rows[0].key, amended));
    }

    /** `validateLongLivedToken`: a failure to write the last-used time makes it invalid too. */
    method ValidateLongLivedToken(key: nat, userOk: bool, touch: bool, writes: bool, t1: int, t2: int) returns (valid: bool)
      requires Distinct(docs)
      modifies this`docs
      ensures (docs, Accepted(valid)) == Do(settings, old(docs), ValidateLongLived(key, userOk, touch, writes, t1, t2))
      ensures Redeemed(ValidateLongLived(key, userOk, touch, writes, t1, t2), old(docs), docs, valid)
    {
      hide Filter, Update, Distinct;
      RedemptionMeans(settings, docs, ValidateLongLived(key, userOk, touch, writes, t1, t2));
      ViewIsLookup(docs, key, (body: Body) => body.LongLived?);
      UpdateSame(docs, Keyed(key));
      FilterElements(Keyed(key), docs);
      var rows := Query(ViewRow(key, (body: Body) => body.LongLived?));
      if |rows| == 0 {
        return false;
      }
      assert Keyed(key)(rows[0]);
      var token := rows[0].body;
      if !token.enabled {
        return false;
      }
      if token.lapse.Some? && token.lapse.value != 0 && token.lapse.value < t1 {
        return false;
      }
      if !userOk {
        return false;
      }
      if touch {
        if !writes {
          return false;
        }
        WriteBack(docs, key, UseLongLived(t2)(token), UseLongLived(t2));
        Put(Doc(rows[0].key, UseLongLived(t2)(token)));
      }
      return true;
    }

    // ----- download grants

    /** `revokeUnusedGrantsForUser`. */
    method RevokeUnusedGrantsForUser(user: nat, now: int) returns (revoked: nat)
      requires Distinct(docs)
      modifies this`docs
      ensures (docs, Revoked(revoked)) == Do(settings, old(docs), RevokeGrants(user, now))
      ensures revoked == |Filter(LiveGrant(user, now), old(docs))| && Filter(LiveGrant(user, now), docs) == []
      ensures AllWithdrawn(old(docs), docs, user, now)
    {
      hide Do, Update, Filter, Distinct;
      WithdrawalMeans(docs, user, now);
      RevokeIsUpdate(settings, docs, user, now);
      var grants := Query(GrantOf(user));
      FilterMembers(GrantOf(user), docs);
      NoneYet(LiveGrant(user, now), grants);
      revoked := 0;
      ghost var marked: set<nat> := {};
      NothingMarked(docs);
      for i := 0 to |grants|
        invariant docs == Update(old(docs), KeyIn(marked), MarkUsed)
        invariant marked == set m | 0 <= m < i && LiveGrant(user, now)(grants[m]) :: grants[m].key
        invariant revoked == |Filter(LiveGrant(user, now), grants[..i])|
      {
        var grant := grants[i];
        assert grant in grants;
        assert grants[..i + 1] == grants[..i] + [grant];
        FilterAppend(LiveGrant(user, now), grants[..i], [grant]);
        FilterOne(LiveGrant(user, now), grant);
        FilterMembers(GrantOf(user), old(docs));
        if grant.body.used || grant.body.expiry < now {
          continue;
        }
        MarkOneMore(old(docs), marked, grant);
        Put(Doc(grant.key, MarkUsed(grant.body)));
        marked := marked + {grant.key};
        revoked := revoked + 1;
      }
      assert grants[..|grants|] == grants;
      FilterAbsorb(GrantOf(user), LiveGrant(user, now), docs);
      FilterAbsorb(GrantOf(user), LiveGrant(user, now), old(docs));
      MarkedAreLive(old(docs), grants, user, now, marked);
    }

    /** `enforceUnusedGrantCap`: marks the oldest live grants, so that one more fits the cap. */
    method EnforceUnusedGrantCap(user: nat, now: int)
      requires Distinct(docs) && settings.maxGrants >= 1
      modifies this`docs
      ensures docs == Update(old(docs), KeyIn(Overflow(Filter(LiveGrant(user, now), old(docs)), settings.maxGrants)), MarkUsed)
      ensures |Filter(LiveGrant(user, now), docs)| < settings.maxGrants
      ensures CapEnforced(old(docs), docs, user, now, settings.maxGrants)
    {
      hide Do, Update, Filter, Distinct, OldestFirst;
      ghost var live := Filter(LiveGrant(user, now), docs);
      RoomForOne(docs, user, now, settings.maxGrants);
      CapMeans(docs, user, now, settings.maxGrants);
      var grants := Query(GrantOf(user));
      FilterAbsorb(GrantOf(user), LiveGrant(user, now), docs);
      var unused := OldestFirst(Filter(LiveGrant(user, now), grants));
      SortedLength(live);
      var overflow := |unused| - (settings.maxGrants - 1);
      if overflow <= 0 {
        NothingMarked(docs);
        assert Overflow(live, settings.maxGrants) == {};
        return;
      }
      ghost var marked: set<nat> := {};
      NothingMarked(docs);
      for i := 0 to overflow
        invariant docs == Update(old(docs), KeyIn(marked), MarkUsed)
        invariant marked == set m | 0 <= m < i :: unused[m].key
      {
        SortedIn(live, i);
        FilterMembers(LiveGrant(user, now), old(docs));
        MarkOneMore(old(docs), marked, unused[i]);
        Put(Doc(unused[i].key, MarkUsed(unused[i].body)));
        marked := marked + {unused[i].key};
      }
      assert marked == Overflow(live, settings.maxGrants);
    }

    /** `createDownloadGrant`. */
    method CreateDownloadGrant(key: nat, user: nat, t1: int, t2: int, t3: int)
      requires Distinct(docs) && settings.maxGrants >= 1
      modifies this`docs
      ensures docs == Do(settings, old(docs), CreateGrant(key, user, t1, t2, t3)).0
      ensures docs != [] && docs[|docs| - 1] == Doc(key, Grant(user, false, t2, t3 + settings.grantLifetime))
      ensures CapEnforced(old(docs), docs[..|docs| - 1], user, t1, settings.maxGrants)
    {
      EnforceUnusedGrantCap(user, t1);
      ghost var enforced := docs;
      Insert(Doc(key, Grant(user, false, t2, t3 + settings.grantLifetime)));
      assert docs[..|docs| - 1] == enforced;
    }

    /** `consumeDownloadGrant`; `secretOk` when no cookie secret is given or its hash matches. */
    method ConsumeDownloadGrant(key: nat, secretOk: bool, now: int) returns (result: Consumed)
      requires Distinct(docs)
      modifies this`docs
      ensures (docs, Accepted(result == Ok)) == Do(settings, old(docs), ConsumeGrant(key, secretOk, now))
      ensures Redeemed(ConsumeGrant(key, secretOk, now), old(docs), docs, result == Ok)
      ensures result == UsedGrant <==> exists doc :: doc in old(docs) && doc.key == key && doc.body.Grant? && doc.body.used
      ensures result == ExpiredGrant <==>
        exists doc :: doc in old(docs) && doc.key == key && doc.body.Grant? && !doc.body.used && doc.body.expiry < now
    {
      hide Filter, Update, Distinct;
      RedemptionMeans(settings, docs, ConsumeGrant(key, secretOk, now));
      ViewIsLookup(docs, key, (body: Body) => body.Grant?);
      FilterMembers(ViewRow(key, (body: Body) => body.Grant?), docs);
      var rows := Query(ViewRow(key, (body: Body) => body.Grant?));
      if |rows| == 0 {
        return InvalidGrant;
      }
      var grant := rows[0].body;
      assert rows == [rows[0]] && rows[0] in rows;
      if grant.used {
        return UsedGrant;
      }
      if grant.expiry < now {
        return ExpiredGrant;
      }
      if !secretOk {
        return InvalidGrant;
      }
      WriteBack(docs, key, MarkUsed(grant), MarkUsed);
      Put(Doc(rows[0].key, MarkUsed(grant)));
      return Ok;
    }
  }

  lemma {:induction false} NothingToUpdate(docs: seq<Doc>, test: Test, f: Body -> Body)
    requires Filter(test, docs) == []
    ensures Update(docs, test, f) == docs
  {
    if docs != [] {
      NothingToUpdate(docs[1..], test, f);
    }
  }

  lemma RevokeIsUpdate(settings: Settings, docs: seq<Doc>, user: nat, now: int)
    ensures Do(settings, docs, RevokeGrants(user, now))
         == (Update(docs, LiveGrant(user, now), MarkUsed), Revoked(|Filter(LiveGrant(user, now), docs)|))
  {
  }

  lemma NoneYet(test: Test, docs: seq<Doc>)
    ensures Filter(test, docs[..0]) == []
  {
  }

  lemma FilterOne(test: Test, doc: Doc)
    ensures Filter(test, [doc]) == if test(doc) then [doc] else []
  {
  }

  lemma NothingMarked(docs: seq<Doc>)
    ensures Update(docs, KeyIn({}), MarkUsed) == docs
  {
    UpdateAt(docs, KeyIn({}), MarkUsed);
  }

  /** With distinct keys, a test that the document with the key passes picks out that document. */
  lemma OnlyMatch(docs: seq<Doc>, key: nat, test: Test, f: Body -> Body)
    requires Distinct(docs) && |Filter(Keyed(key), docs)| == 1 && test(Filter(Keyed(key), docs)[0])
    requires forall doc :: test(doc) ==> doc.key == key
    ensures Update(docs, Keyed(key), f) == Update(docs, test, f)
  {
    var k := FilterOrigin(Keyed(key), docs, 0);
    UpdateCongruence(docs, Keyed(key), test, f);
  }

  lemma MarkedAreLive(docs: seq<Doc>, grants: seq<Doc>, user: nat, now: int, marked: set<nat>)
    requires Distinct(docs) && grants == Filter(GrantOf(user), docs)
    requires marked == set m | 0 <= m < |grants| && LiveGrant(user, now)(grants[m]) :: grants[m].key
    ensures Update(docs, KeyIn(marked), MarkUsed) == Update(docs, LiveGrant(user, now), MarkUsed)
  {
    FilterMembers(GrantOf(user), docs);
    forall i | 0 <= i < |docs|
      ensures docs[i].key in marked <==> LiveGrant(user, now)(docs[i])
    {
      if LiveGrant(user, now)(docs[i]) {
        assert docs[i] in docs;
        assert docs[i] in grants;
      }
      if docs[i].key in marked {
        var m :| 0 <= m < |grants| && LiveGrant(user, now)(grants[m]) && grants[m].key == docs[i].key;
        var k := FilterOrigin(GrantOf(user), docs, m);
        assert k == i;
      }
    }
    UpdateCongruence(docs, KeyIn(marked), LiveGrant(user, now), MarkUsed);
  }
}
